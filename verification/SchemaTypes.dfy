/** Schema types as written in a schema, the types they denote, and the resolver between the two. */
module SchemaTypes {
  import opened Wrappers
  import opened Choices

  /** A possibly qualified name */
  datatype Name = Name(path: seq<string>, base: string)

  /** `json_schema::Type`: what a schema author writes */
  datatype SchemaType =
    | CommonTypeRef(ref: Name)
    | Boolean
    | Long
    | String
    | Set(element: SchemaType)
    | Record(attributes: seq<Attribute>, additional: bool)
    | Entity(entity: Name)
    | EntityOrCommon(either: Name)
    | Extension(ext: string)

  /** Attributes that differ in annotations only are different. */
  datatype Attribute = Attribute(key: string, ty: SchemaType, required: bool, notes: Annotations)

  /** The generators' own types */
  datatype Type =
    | BoolType
    | LongType
    | StringType
    | SetType(element: Type)
    | RecordType(fields: seq<Field>)
    | EntityType(entity: Name)
    | IpAddrType
    | DecimalType
    | DateTimeType
    | DurationType

  datatype Field = Field(key: string, ty: Type, required: bool)

  /** Common-type definitions, keyed by the id alone: a lookup drops the namespace. */
  type Definitions = map<string, SchemaType>

  /** The resolver may panic, and on cyclic definitions it does not return at all. */
  datatype Outcome<+T> = Done(value: T) | Panic | OutOfFuel

  function Qualify(name: Name, namespace: Option<Name>): Name {
    if namespace.None? || name.path != [] then name
    else Name(namespace.value.path + [namespace.value.base], name.base)
  }

  function ResolveExtension(name: string): Outcome<Type> {
    if name == "ipaddr" then Done(IpAddrType)
    else if name == "decimal" then Done(DecimalType)
    else if name == "datetime" then Done(DateTimeType)
    else if name == "duration" then Done(DurationType)
    else Panic
  }

  /** `schematype_to_type`.  Its recursion through definitions is not structural, so every lookup
      uses up one unit of fuel; see `ResolvesTo` for the reading without fuel. */
  function Resolve(defs: Definitions, namespace: Option<Name>, ty: SchemaType, fuel: nat): Outcome<Type>
    decreases fuel, ty
  {
    match ty
    case CommonTypeRef(name) =>
      if name.base in defs then
        if fuel == 0 then OutOfFuel else Resolve(defs, namespace, defs[name.base], fuel - 1)
      else ResolveExtension(name.base)
    case Boolean => Done(BoolType)
    case Long => Done(LongType)
    case String => Done(StringType)
    case Set(element) => (
      match Resolve(defs, namespace, element, fuel)
      case Done(t) => Done(SetType(t))
      case Panic => Panic
      case OutOfFuel => OutOfFuel
    )
    case Record(attributes, _) => (
      match ResolveAttributes(defs, namespace, attributes, fuel)
      case Done(fields) => Done(RecordType(fields))
      case Panic => Panic
      case OutOfFuel => OutOfFuel
    )
    case Entity(name) => Done(EntityType(Qualify(name, namespace)))
    case EntityOrCommon(name) =>
      if name.base in defs then
        if fuel == 0 then OutOfFuel else Resolve(defs, namespace, defs[name.base], fuel - 1)
      else Done(EntityType(Qualify(name, namespace)))
    case Extension(name) => ResolveExtension(name)
  }

  function ResolveAttributes(defs: Definitions, namespace: Option<Name>, attributes: seq<Attribute>, fuel: nat)
    : Outcome<seq<Field>>
    decreases fuel, attributes
  {
    if attributes == [] then Done([])
    else
      match Resolve(defs, namespace, attributes[0].ty, fuel)
      case Panic => Panic
      case OutOfFuel => OutOfFuel
      case Done(t) =>
        match ResolveAttributes(defs, namespace, attributes[1..], fuel)
        case Panic => Panic
        case OutOfFuel => OutOfFuel
        case Done(fields) => Done([Field(attributes[0].key, t, attributes[0].required)] + fields)
  }

  /** The resolver returns, with this outcome. */
  ghost predicate ResolvesTo(defs: Definitions, namespace: Option<Name>, ty: SchemaType, outcome: Outcome<Type>) {
    outcome != OutOfFuel && exists fuel: nat :: Resolve(defs, namespace, ty, fuel) == outcome
  }

  /** Both resolve to the same outcome, or neither resolution returns. */
  ghost predicate SameMeaning(defs: Definitions, ty: SchemaType, defs': Definitions, ty': SchemaType,
                              namespace: Option<Name>)
  {
    forall outcome :: ResolvesTo(defs, namespace, ty, outcome) <==> ResolvesTo(defs', namespace, ty', outcome)
  }

  /** More fuel never changes an answer, so an outcome is unique. */
  lemma {:induction false} MoreFuel(defs: Definitions, namespace: Option<Name>, ty: SchemaType, fuel: nat, more: nat)
    requires fuel <= more
    ensures Resolve(defs, namespace, ty, fuel) != OutOfFuel
            ==> Resolve(defs, namespace, ty, more) == Resolve(defs, namespace, ty, fuel)
    decreases fuel, ty
  {
    match ty
    case CommonTypeRef(name) =>
      if name.base in defs && fuel > 0 {
        MoreFuel(defs, namespace, defs[name.base], fuel - 1, more - 1);
      }
    case EntityOrCommon(name) =>
      if name.base in defs && fuel > 0 {
        MoreFuel(defs, namespace, defs[name.base], fuel - 1, more - 1);
      }
    case Set(element) => MoreFuel(defs, namespace, element, fuel, more);
    case Record(attributes, _) => MoreFuelAttributes(defs, namespace, attributes, fuel, more);
    case _ =>
  }

  lemma {:induction false} MoreFuelAttributes(
      defs: Definitions, namespace: Option<Name>, attributes: seq<Attribute>, fuel: nat, more: nat)
    requires fuel <= more
    ensures ResolveAttributes(defs, namespace, attributes, fuel) != OutOfFuel
            ==> ResolveAttributes(defs, namespace, attributes, more)
                == ResolveAttributes(defs, namespace, attributes, fuel)
    decreases fuel, attributes
  {
    if attributes != [] {
      MoreFuel(defs, namespace, attributes[0].ty, fuel, more);
      MoreFuelAttributes(defs, namespace, attributes[1..], fuel, more);
    }
  }

  /** The resolver has at most one outcome. */
  lemma ResolvesToUnique(
      defs: Definitions, namespace: Option<Name>, ty: SchemaType, o1: Outcome<Type>, o2: Outcome<Type>)
    requires ResolvesTo(defs, namespace, ty, o1) && ResolvesTo(defs, namespace, ty, o2)
    ensures o1 == o2
  {
    var f1: nat :| Resolve(defs, namespace, ty, f1) == o1;
    var f2: nat :| Resolve(defs, namespace, ty, f2) == o2;
    MoreFuel(defs, namespace, ty, f1, f1 + f2);
    MoreFuel(defs, namespace, ty, f2, f1 + f2);
  }

  /** Agreement at one pair of fuels is agreement. */
  lemma SameMeaningAt(defs: Definitions, ty: SchemaType, defs': Definitions, ty': SchemaType,
                      namespace: Option<Name>, fuel: nat, fuel': nat)
    requires Resolve(defs, namespace, ty, fuel) == Resolve(defs', namespace, ty', fuel') != OutOfFuel
    ensures SameMeaning(defs, ty, defs', ty', namespace)
  {
    var o := Resolve(defs, namespace, ty, fuel);
    assert ResolvesTo(defs, namespace, ty, o) && ResolvesTo(defs', namespace, ty', o);
    forall outcome
      ensures ResolvesTo(defs, namespace, ty, outcome) <==> ResolvesTo(defs', namespace, ty', outcome)
    {
      if ResolvesTo(defs, namespace, ty, outcome) { ResolvesToUnique(defs, namespace, ty, o, outcome); }
      if ResolvesTo(defs', namespace, ty', outcome) { ResolvesToUnique(defs', namespace, ty', o, outcome); }
    }
  }

  // ----- every type is the meaning of what one would write for it -----

  function Written(t: Type): SchemaType
    decreases t
  {
    match t
    case BoolType => Boolean
    case LongType => Long
    case StringType => String
    case SetType(element) => Set(Written(element))
    case RecordType(fields) => Record(WrittenFields(fields), false)
    case EntityType(name) => Entity(name)
    case IpAddrType => Extension("ipaddr")
    case DecimalType => Extension("decimal")
    case DateTimeType => Extension("datetime")
    case DurationType => Extension("duration")
  }

  function WrittenFields(fields: seq<Field>): seq<Attribute>
    decreases fields
  {
    if fields == [] then []
    else [Attribute(fields[0].key, Written(fields[0].ty), fields[0].required, map[])] + WrittenFields(fields[1..])
  }

  /** Names without a path get that of the namespace. */
  function InNamespace(t: Type, namespace: Option<Name>): Type
    decreases t
  {
    match t
    case SetType(element) => SetType(InNamespace(element, namespace))
    case RecordType(fields) => RecordType(FieldsInNamespace(fields, namespace))
    case EntityType(name) =>
      if namespace.Some? && name.path == []
      then EntityType(Name(namespace.value.path + [namespace.value.base], name.base)) else t
    case _ => t
  }

  function FieldsInNamespace(fields: seq<Field>, namespace: Option<Name>): seq<Field>
    decreases fields
  {
    if fields == [] then []
    else [fields[0].(ty := InNamespace(fields[0].ty, namespace))] + FieldsInNamespace(fields[1..], namespace)
  }

  /** Resolving undoes writing, but for the namespace of names, whatever the definitions. */
  lemma {:induction false} WrittenResolves(defs: Definitions, namespace: Option<Name>, t: Type, fuel: nat)
    ensures Resolve(defs, namespace, Written(t), fuel) == Done(InNamespace(t, namespace))
    decreases t
  {
    match t
    case SetType(element) => WrittenResolves(defs, namespace, element, fuel);
    case RecordType(fields) => WrittenFieldsResolve(defs, namespace, fields, fuel);
    case _ =>
      assert ResolveExtension("datetime") == Done(DateTimeType) && ResolveExtension("duration") == Done(DurationType);
      assert ResolveExtension("ipaddr") == Done(IpAddrType) && ResolveExtension("decimal") == Done(DecimalType);
  }

  lemma {:induction false} WrittenFieldsResolve(
      defs: Definitions, namespace: Option<Name>, fields: seq<Field>, fuel: nat)
    ensures ResolveAttributes(defs, namespace, WrittenFields(fields), fuel)
         == Done(FieldsInNamespace(fields, namespace))
    decreases fields
  {
    if fields != [] {
      WrittenResolves(defs, namespace, fields[0].ty, fuel);
      WrittenFieldsResolve(defs, namespace, fields[1..], fuel);
      assert WrittenFields(fields)[1..] == WrittenFields(fields[1..]);
    }
  }
}

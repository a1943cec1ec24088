/** Entity-or-common names, and the schemas that every run of common-type introduction keeps.

    A new id may equal the base name of an entity-or-common name.  From then on the resolver takes
    that name for the new common type.  The name survives when each type that a run may bind is the
    very entity type that the name stands for. */
module CommonTypesNames {
  import opened Wrappers
  import opened Choices
  import opened SchemaTypes
  import opened CommonTypes
  import opened CommonTypesProofs
  import opened CommonTypesTheorems
  import opened CommonTypesRuns

  // ----- the condition -----

  /** The entity-or-common name occurs in the type. */
  ghost predicate Mentions(ty: SchemaType, n: Name) {
    match ty
    case Set(element) => Mentions(element, n)
    case Record(attributes, _) => exists a <- attributes :: Mentions(a.ty, n)
    case EntityOrCommon(name) => name == n
    case _ => false
  }

  ghost predicate SchemaMentions(schema: Namespace, n: Name) {
    exists ty <- Positions(schema) :: Mentions(ty, n)
  }

  /** Definitions leave the name what it is without any: an entity type. */
  ghost predicate EntityName(defs: Definitions, namespace: Option<Name>, n: Name) {
    ResolvesTo(defs, namespace, EntityOrCommon(n), Done(EntityType(Qualify(n, namespace))))
  }

  /** The type is the entity type that the name stands for, and not by the same kind of name. */
  predicate SameEntity(ty: SchemaType, n: Name, namespace: Option<Name>) {
    ty.Entity? && Qualify(ty.entity, namespace) == Qualify(n, namespace)
  }

  ghost predicate NameSafe(attributes: seq<SchemaType>, schema: Namespace, namespace: Option<Name>, n: Name) {
    && EntityName(schema.commonTypes, namespace, n)
    && forall ty <- Bindable(attributes, schema) :: SameEntity(ty, n, namespace)
  }

  ghost predicate Uncapturable(attributes: seq<SchemaType>, schema: Namespace, namespace: Option<Name>) {
    forall n | SchemaMentions(schema, n) :: NameSafe(attributes, schema, namespace, n)
  }

  /** Every type denotes one, once its entity-or-common names are taken for entity types. */
  ghost predicate Denotes(schema: Namespace, namespace: Option<Name>) {
    forall ty <- Positions(schema) :: Meaning(namespace, ty).Done?
  }

  // ----- names that stay entity types -----

  /** When all names of a type stay entity types, the definitions do not matter to it. */
  lemma {:induction false} NamesResolve(
      defs: Definitions, namespace: Option<Name>, ty: SchemaType, either: set<string>) returns (fuel: nat)
    requires Within(ty, either) && forall n | Mentions(ty, n) :: EntityName(defs, namespace, n)
    ensures Resolve(defs, namespace, ty, fuel) == Meaning(namespace, ty)
    decreases ty
  {
    fuel := 0;
    match ty {
      case Set(element) => fuel := NamesResolve(defs, namespace, element, either);
      case Record(attributes, _) => fuel := AttributeNamesResolve(defs, namespace, attributes, either);
      case EntityOrCommon(n) =>
        assert Mentions(ty, n);
        fuel :| Resolve(defs, namespace, ty, fuel) == Done(EntityType(Qualify(n, namespace)));
      case _ =>
    }
  }

  lemma {:induction false} AttributeNamesResolve(
      defs: Definitions, namespace: Option<Name>, attributes: seq<Attribute>, either: set<string>)
    returns (fuel: nat)
    requires forall a <- attributes :: Within(a.ty, either)
    requires forall a, n | a in attributes && Mentions(a.ty, n) :: EntityName(defs, namespace, n)
    ensures ResolveAttributes(defs, namespace, attributes, fuel) == ResolveAttributes(map[], namespace, attributes, 0)
    ensures ResolveAttributes(map[], namespace, attributes, 0) != OutOfFuel
    decreases attributes
  {
    fuel := 0;
    if attributes != [] {
      assert attributes[0] in attributes;
      var first := NamesResolve(defs, namespace, attributes[0].ty, either);
      var rest := AttributeNamesResolve(defs, namespace, attributes[1..], either);
      fuel := first + rest;
      PlainMeaning(map[], namespace, attributes[0].ty, either, 0);
      MoreFuel(defs, namespace, attributes[0].ty, first, fuel);
      MoreFuelAttributes(defs, namespace, attributes[1..], rest, fuel);
    }
  }

  /** All bound types are one entity type, and so are the names that the new ids capture. */
  ghost predicate OneEntity(b: Binds, defs: Definitions, namespace: Option<Name>, q: Name, k: nat) {
    && (forall id :: id in defs ==> Names(b, id))
    && (forall t {:trigger Defined(b, defs, t)} :: t in b.bindings ==> Defined(b, defs, t))
    && forall t :: t in b.bindings ==>
         t.Entity? && Qualify(t.entity, namespace) == q && 0 < |b.bindings[t]| <= k
  }

  lemma PlaceOf(b: Binds, id: string) returns (t: SchemaType, i: nat)
    requires Names(b, id)
    ensures t in b.bindings && i < |b.bindings[t]| && b.bindings[t][i] == id
  {
    t, i :| t in b.bindings && 0 <= i < |b.bindings[t]| && b.bindings[t][i] == id;
  }

  lemma EntityChain(b: Binds, defs: Definitions, namespace: Option<Name>, t: SchemaType, i: nat, fuel: nat)
    requires t in b.bindings && Defined(b, defs, t) && t.Entity? && i < |b.bindings[t]| <= fuel
    ensures Resolve(defs, namespace, CommonTypeRef(Name([], b.bindings[t][i])), fuel)
         == Done(EntityType(Qualify(t.entity, namespace)))
  {
    var ids := b.bindings[t];
    var body := defs[ids[|ids| - 1]];
    assert IsRewriting(b, t, body);
    assert body == t;
    ChainMeaning(defs, namespace, ids, i, fuel);
  }

  lemma BoundIsEntity(b: Binds, defs: Definitions, namespace: Option<Name>, q: Name, k: nat, t: SchemaType, i: nat)
    requires OneEntity(b, defs, namespace, q, k) && t in b.bindings && i < |b.bindings[t]|
    ensures t.Entity? && Qualify(t.entity, namespace) == q
    ensures Resolve(defs, namespace, CommonTypeRef(Name([], b.bindings[t][i])), k) == Done(EntityType(q))
  {
    assert Defined(b, defs, t);
    EntityChain(b, defs, namespace, t, i, k);
  }

  lemma SameLookup(defs: Definitions, namespace: Option<Name>, n: Name, k: nat)
    requires n.base in defs
    ensures Resolve(defs, namespace, EntityOrCommon(n), k)
         == Resolve(defs, namespace, CommonTypeRef(Name([], n.base)), k)
  {
  }

  lemma NameIsEntity(b: Binds, defs: Definitions, namespace: Option<Name>, q: Name, k: nat, n: Name)
    requires OneEntity(b, defs, namespace, q, k) && (n.base in defs ==> Qualify(n, namespace) == q)
    ensures Resolve(defs, namespace, EntityOrCommon(n), k) == Done(EntityType(Qualify(n, namespace)))
  {
    if n.base in defs {
      var t, i := PlaceOf(b, n.base);
      BoundIsEntity(b, defs, namespace, q, k, t, i);
      SameLookup(defs, namespace, n, k);
    }
  }

  ghost predicate NameGood(defs: Definitions, namespace: Option<Name>, k: nat, n: Name) {
    Resolve(defs, namespace, EntityOrCommon(n), k) == Done(EntityType(Qualify(n, namespace)))
  }

  ghost predicate BoundGood(b: Binds, defs: Definitions, namespace: Option<Name>, k: nat) {
    forall t, i | t in b.bindings && 0 <= i < |b.bindings[t]| ::
      Resolve(defs, namespace, CommonTypeRef(Name([], b.bindings[t][i])), k) == Meaning(namespace, t)
  }

  lemma {:induction false} OccurrenceGood(
      b: Binds, defs: Definitions, namespace: Option<Name>, k: nat, ty: SchemaType, u: Unstructured)
    requires BoundGood(b, defs, namespace, k) && forall n | Mentions(ty, n) :: NameGood(defs, namespace, k, n)
    requires RewriteType(b, ty, u).Ok?
    ensures Resolve(defs, namespace, RewriteType(b, ty, u).value.0, k) == Meaning(namespace, ty)
    decreases ty
  {
    if ty !in b.bindings {
      match ty
      case Set(element) => OccurrenceGood(b, defs, namespace, k, element, u);
      case Record(attributes, _) => AttributesGood(b, defs, namespace, k, attributes, u);
      case EntityOrCommon(n) => assert Mentions(ty, n);
      case _ =>
    }
  }

  lemma {:induction false} AttributesGood(
      b: Binds, defs: Definitions, namespace: Option<Name>, k: nat, attributes: seq<Attribute>, u: Unstructured)
    requires BoundGood(b, defs, namespace, k)
    requires forall a, n | a in attributes && Mentions(a.ty, n) :: NameGood(defs, namespace, k, n)
    requires RewriteAttributes(b, attributes, u).Ok?
    ensures ResolveAttributes(defs, namespace, RewriteAttributes(b, attributes, u).value.0, k)
         == ResolveAttributes(map[], namespace, attributes, 0)
    decreases attributes
  {
    if attributes != [] {
      var (ty, u1) := RewriteType(b, attributes[0].ty, u).value;
      assert attributes[0] in attributes;
      OccurrenceGood(b, defs, namespace, k, attributes[0].ty, u);
      AttributesGood(b, defs, namespace, k, attributes[1..], u1);
      assert RewriteAttributes(b, attributes, u).value.0[1..] == RewriteAttributes(b, attributes[1..], u1).value.0;
    }
  }

  lemma OneEntityGood(b: Binds, defs: Definitions, namespace: Option<Name>, q: Name, k: nat)
    requires OneEntity(b, defs, namespace, q, k)
    ensures BoundGood(b, defs, namespace, k)
  {
    forall t, i | t in b.bindings && 0 <= i < |b.bindings[t]|
      ensures Resolve(defs, namespace, CommonTypeRef(Name([], b.bindings[t][i])), k) == Meaning(namespace, t)
    {
      BoundIsEntity(b, defs, namespace, q, k, t, i);
    }
  }

  lemma OneEntityKept(
      b: Binds, orig: Definitions, defs: Definitions, namespace: Option<Name>, q: Name, k: nat, ty: SchemaType,
      either: set<string>)
    requires OneEntity(b, defs, namespace, q, k) && Within(ty, either)
    requires forall n | Mentions(ty, n) ::
               EntityName(orig, namespace, n) && (n.base in defs ==> Qualify(n, namespace) == q)
    ensures TypeKept(b, orig, defs, namespace, ty)
  {
    var fuel := NamesResolve(orig, namespace, ty, either);
    PlainMeaning(map[], namespace, ty, either, 0);
    OneEntityGood(b, defs, namespace, q, k);
    forall n | Mentions(ty, n)
      ensures NameGood(defs, namespace, k, n)
    {
      NameIsEntity(b, defs, namespace, q, k, n);
    }
    forall u | RewriteType(b, ty, u).Ok?
      ensures SameMeaning(orig, ty, defs, RewriteType(b, ty, u).value.0, namespace)
    {
      OccurrenceGood(b, defs, namespace, k, ty, u);
      SameMeaningAt(orig, ty, defs, RewriteType(b, ty, u).value.0, namespace, fuel, k);
    }
  }

  lemma {:induction false} BoundAreListed(b: Binds, tys: seq<SchemaType>, u: Unstructured)
    requires (forall t <- tys :: t.Entity?) && BindAll(b, tys, u).Ok?
    ensures forall t :: t in BindAll(b, tys, u).value.0.bindings ==> t in b.bindings || t in tys
    decreases tys
  {
    if tys != [] {
      var (b1, u1) := BindType(b, tys[0], u).value;
      assert tys[0] in tys;
      BoundAreListed(b1, tys[1..], u1);
    }
  }

  lemma SchemaBoundAreListed(attributes: seq<SchemaType>, schema: Namespace, u: Unstructured)
    requires (forall t <- Bindable(attributes, schema) :: t.Entity?) && BindSchema(attributes, schema, u).Ok?
    ensures forall t :: t in BindSchema(attributes, schema, u).value.0.bindings ==> t in Bindable(attributes, schema)
  {
    var tys, tags := Bindable(attributes, schema), TagTypes(schema.entityTypes);
    assert forall t <- attributes :: t in tys;
    assert forall t <- tags :: t in tys;
    var (b1, u1) := BindAll(NO_BINDS, attributes, u).value;
    BoundAreListed(NO_BINDS, attributes, u);
    BoundAreListed(b1, tags, u1);
  }

  // ----- runs that keep a schema -----

  lemma {:induction false} SomeMention(ty: SchemaType, either: set<string>) returns (n: Name)
    requires Within(ty, either) && !Within(ty, {})
    ensures Mentions(ty, n)
  {
    match ty {
      case Set(element) => n := SomeMention(element, either);
      case Record(attributes, _) =>
        var a :| a in attributes && !Within(a.ty, {});
        n := SomeMention(a.ty, either);
      case EntityOrCommon(name) => n := name;
    }
  }

  /** A schema without entity-or-common names is kept by every run. */
  lemma UnmentionedKept(
      attributes: seq<SchemaType>, schema: Namespace, order: KeyOrder, u: Unstructured, namespace: Option<Name>,
      either: set<string>)
    requires IsOrder(order) && TypesWithin(attributes, either) && SchemaWithin(schema, either)
    requires AddCommonTypes(attributes, schema, order, u).Ok? && forall n :: !SchemaMentions(schema, n)
    ensures Kept(schema, AddCommonTypes(attributes, schema, order, u).value.0, namespace)
  {
    forall ty | ty in Positions(schema)
      ensures Within(ty, {})
    {
      if !Within(ty, {}) {
        var n := SomeMention(ty, either);
        assert SchemaMentions(schema, n);
      }
    }
    MeaningPreserved(attributes, schema, order, u, namespace, either, {});
  }

  lemma MentionedKept(
      attributes: seq<SchemaType>, schema: Namespace, order: KeyOrder, u: Unstructured, namespace: Option<Name>,
      either: set<string>, n: Name)
    requires IsOrder(order) && TypesWithin(attributes, either) && SchemaWithin(schema, either)
    requires AddCommonTypes(attributes, schema, order, u).Ok?
    requires Uncapturable(attributes, schema, namespace) && SchemaMentions(schema, n)
    ensures Kept(schema, AddCommonTypes(attributes, schema, order, u).value.0, namespace)
  {
    var b, k, u2 := RunBindings(attributes, schema, order, u, either);
    assert NameSafe(attributes, schema, namespace, n);
    var schema' := AddCommonTypes(attributes, schema, order, u).value.0;
    var q, defs := Qualify(n, namespace), schema'.commonTypes;
    SchemaBoundAreListed(attributes, schema, u);
    assert OneEntity(b, defs, namespace, q, k);
    forall ty | ty in Positions(schema)
      ensures TypeKept(b, schema.commonTypes, defs, namespace, ty)
    {
      forall m | Mentions(ty, m)
        ensures EntityName(schema.commonTypes, namespace, m) && (m.base in defs ==> Qualify(m, namespace) == q)
      {
        assert SchemaMentions(schema, m);
        assert NameSafe(attributes, schema, namespace, m) && NameSafe(attributes, schema, namespace, n);
        if m.base in defs {
          var t, _ := PlaceOf(b, m.base);
          assert t in Bindable(attributes, schema) && SameEntity(t, m, namespace) && SameEntity(t, n, namespace);
        }
      }
      OneEntityKept(b, schema.commonTypes, defs, namespace, q, k, ty, either);
    }
    SchemaKept(b, schema, schema', u2, namespace);
  }
}

/** The meaning of a whole schema across common-type introduction. */
module CommonTypesTheorems {
  import opened Wrappers
  import opened Choices
  import opened SchemaTypes
  import opened CommonTypes
  import opened CommonTypesProofs

  // ----- statements -----

  function DeclPositions(e: EntityDecl): seq<SchemaType> {
    match e
    case Enum(_) => []
    case Standard(_, shape, tags) => if tags.None? then [shape] else [shape, tags.value]
  }

  function EntityPositions(es: seq<(string, EntityDecl)>): seq<SchemaType> {
    if es == [] then [] else DeclPositions(es[0].1) + EntityPositions(es[1..])
  }

  function ContextPositions(a: ActionDecl): seq<SchemaType> {
    if a.appliesTo.None? then [] else [a.appliesTo.value.context]
  }

  function ActionPositions(acts: seq<(string, ActionDecl)>): seq<SchemaType> {
    if acts == [] then [] else ContextPositions(acts[0].1) + ActionPositions(acts[1..])
  }

  /** The entity shapes, tag types and action contexts of a schema */
  function Positions(schema: Namespace): seq<SchemaType> {
    EntityPositions(schema.entityTypes) + ActionPositions(schema.actions)
  }

  /** No common-type references, and all entity-or-common names among these */
  ghost predicate TypesWithin(tys: seq<SchemaType>, either: set<string>) {
    forall t <- tys :: Within(t, either)
  }

  ghost predicate SchemaWithin(schema: Namespace, either: set<string>) {
    TypesWithin(Positions(schema), either)
  }

  ghost predicate EntityKept(
      defs: Definitions, e: EntityDecl, defs': Definitions, e': EntityDecl, namespace: Option<Name>)
  {
    match e
    case Enum(_) => e' == e
    case Standard(parents, shape, tags) =>
      && e'.Standard? && e'.memberOfTypes == parents
      && SameMeaning(defs, shape, defs', e'.shape, namespace)
      && e'.tags.Some? == tags.Some?
      && (tags.Some? ==> SameMeaning(defs, tags.value, defs', e'.tags.value, namespace))
  }

  ghost predicate ActionKept(
      defs: Definitions, a: ActionDecl, defs': Definitions, a': ActionDecl, namespace: Option<Name>)
  {
    && a'.memberOf == a.memberOf
    && a'.appliesTo.Some? == a.appliesTo.Some?
    && (a.appliesTo.Some? ==>
          var spec, spec' := a.appliesTo.value, a'.appliesTo.value;
          && spec'.resourceTypes == spec.resourceTypes && spec'.principalTypes == spec.principalTypes
          && SameMeaning(defs, spec.context, defs', spec'.context, namespace))
  }

  /** Same declarations in the same order, each with types of the same meaning */
  ghost predicate Kept(schema: Namespace, schema': Namespace, namespace: Option<Name>) {
    && |schema'.entityTypes| == |schema.entityTypes|
    && (forall i | 0 <= i < |schema.entityTypes| ::
          && schema'.entityTypes[i].0 == schema.entityTypes[i].0
          && EntityKept(schema.commonTypes, schema.entityTypes[i].1,
                        schema'.commonTypes, schema'.entityTypes[i].1, namespace))
    && |schema'.actions| == |schema.actions|
    && (forall i | 0 <= i < |schema.actions| ::
          && schema'.actions[i].0 == schema.actions[i].0
          && ActionKept(schema.commonTypes, schema.actions[i].1,
                        schema'.commonTypes, schema'.actions[i].1, namespace))
  }

  // ----- a schema is kept when each of its types is -----

  /** Whatever a rewriting makes of the type, its meaning stays. */
  ghost predicate TypeKept(b: Binds, orig: Definitions, defs: Definitions, namespace: Option<Name>, ty: SchemaType) {
    forall u | RewriteType(b, ty, u).Ok? :: SameMeaning(orig, ty, defs, RewriteType(b, ty, u).value.0, namespace)
  }

  lemma UseKept(
      b: Binds, orig: Definitions, defs: Definitions, namespace: Option<Name>, ty: SchemaType, u: Unstructured)
    requires TypeKept(b, orig, defs, namespace, ty) && RewriteType(b, ty, u).Ok?
    ensures SameMeaning(orig, ty, defs, RewriteType(b, ty, u).value.0, namespace)
  {
  }

  lemma {:induction false} RewriteEntitiesKeeps(
      b: Binds, orig: Definitions, defs: Definitions, namespace: Option<Name>,
      es: seq<(string, EntityDecl)>, u: Unstructured)
    requires forall ty <- EntityPositions(es) :: TypeKept(b, orig, defs, namespace, ty)
    requires RewriteEntities(b, es, u).Ok?
    ensures var es' := RewriteEntities(b, es, u).value.0;
            |es'| == |es| && forall i | 0 <= i < |es| ::
              es'[i].0 == es[i].0 && EntityKept(orig, es[i].1, defs, es'[i].1, namespace)
  {
    if es != [] {
      var u1 := RewriteEntity(b, es[0].1, u).value.1;
      assert forall ty <- DeclPositions(es[0].1) :: ty in EntityPositions(es);
      assert forall ty <- EntityPositions(es[1..]) :: ty in EntityPositions(es);
      DeclKept(b, orig, defs, namespace, es[0].1, u);
      RewriteEntitiesKeeps(b, orig, defs, namespace, es[1..], u1);
    }
  }

  lemma {:induction false} DeclKept(
      b: Binds, orig: Definitions, defs: Definitions, namespace: Option<Name>, e: EntityDecl, u: Unstructured)
    requires forall ty <- DeclPositions(e) :: TypeKept(b, orig, defs, namespace, ty)
    requires RewriteEntity(b, e, u).Ok?
    ensures EntityKept(orig, e, defs, RewriteEntity(b, e, u).value.0, namespace)
  {
    if e.Standard? {
      assert e.shape in DeclPositions(e) by { assert DeclPositions(e)[0] == e.shape; }
      UseKept(b, orig, defs, namespace, e.shape, u);
      if e.tags.Some? {
        assert e.tags.value in DeclPositions(e) by { assert DeclPositions(e)[1] == e.tags.value; }
        UseKept(b, orig, defs, namespace, e.tags.value, RewriteType(b, e.shape, u).value.1);
      }
    }
  }

  lemma {:induction false} RewriteActionsKeeps(
      b: Binds, orig: Definitions, defs: Definitions, namespace: Option<Name>,
      acts: seq<(string, ActionDecl)>, u: Unstructured)
    requires forall ty <- ActionPositions(acts) :: TypeKept(b, orig, defs, namespace, ty)
    requires RewriteActions(b, acts, u).Ok?
    ensures var acts' := RewriteActions(b, acts, u).value.0;
            |acts'| == |acts| && forall i | 0 <= i < |acts| ::
              acts'[i].0 == acts[i].0 && ActionKept(orig, acts[i].1, defs, acts'[i].1, namespace)
  {
    if acts != [] {
      var a := acts[0].1;
      var u1 := RewriteAction(b, a, u).value.1;
      assert forall ty <- ContextPositions(a) :: ty in ActionPositions(acts);
      assert forall ty <- ActionPositions(acts[1..]) :: ty in ActionPositions(acts);
      if a.appliesTo.Some? {
        assert a.appliesTo.value.context in ContextPositions(a);
        UseKept(b, orig, defs, namespace, a.appliesTo.value.context, u);
      }
      RewriteActionsKeeps(b, orig, defs, namespace, acts[1..], u1);
    }
  }

  /** The rewritten declarations of a schema, from the choices `u` on */
  ghost predicate RewrittenFrom(b: Binds, schema: Namespace, schema': Namespace, u: Unstructured) {
    && RewriteEntities(b, schema.entityTypes, u).Ok?
    && var (entities, u1) := RewriteEntities(b, schema.entityTypes, u).value;
    && RewriteActions(b, schema.actions, u1).Ok?
    && schema' == Namespace(schema'.commonTypes, entities, RewriteActions(b, schema.actions, u1).value.0)
  }

  lemma SchemaKept(b: Binds, schema: Namespace, schema': Namespace, u: Unstructured, namespace: Option<Name>)
    requires RewrittenFrom(b, schema, schema', u)
    requires forall ty <- Positions(schema) ::
               TypeKept(b, schema.commonTypes, schema'.commonTypes, namespace, ty)
    ensures Kept(schema, schema', namespace)
  {
    var es, acts := schema.entityTypes, schema.actions;
    assert forall ty <- EntityPositions(es) :: ty in Positions(schema);
    assert forall ty <- ActionPositions(acts) :: ty in Positions(schema);
    RewriteEntitiesKeeps(b, schema.commonTypes, schema'.commonTypes, namespace, es, u);
    var u1 := RewriteEntities(b, es, u).value.1;
    RewriteActionsKeeps(b, schema.commonTypes, schema'.commonTypes, namespace, acts, u1);
  }

  // ----- kept, when no new id captures an entity-or-common name -----

  /** Definitions that no name in the type refers to do not matter. */
  lemma {:induction false} PlainMeaning(
      defs: Definitions, namespace: Option<Name>, ty: SchemaType, either: set<string>, fuel: nat)
    requires Within(ty, either) && either !! defs.Keys
    ensures Resolve(defs, namespace, ty, fuel) == Meaning(namespace, ty) != OutOfFuel
    decreases ty
  {
    match ty
    case Set(element) => PlainMeaning(defs, namespace, element, either, fuel);
    case Record(attributes, _) => PlainAttributes(defs, namespace, attributes, either, fuel);
    case _ =>
  }

  lemma {:induction false} PlainAttributes(
      defs: Definitions, namespace: Option<Name>, attributes: seq<Attribute>, either: set<string>, fuel: nat)
    requires (forall a <- attributes :: Within(a.ty, either)) && either !! defs.Keys
    ensures ResolveAttributes(defs, namespace, attributes, fuel)
         == ResolveAttributes(map[], namespace, attributes, 0) != OutOfFuel
    decreases attributes
  {
    if attributes != [] {
      PlainMeaning(defs, namespace, attributes[0].ty, either, fuel);
      PlainAttributes(defs, namespace, attributes[1..], either, fuel);
    }
  }

  lemma RewriteKeepsMeaning(
      b: Binds, orig: Definitions, defs: Definitions, either: set<string>, k: nat, namespace: Option<Name>,
      ty: SchemaType)
    requires Ready(b, defs, either, k) && Within(ty, either) && either !! orig.Keys
    ensures TypeKept(b, orig, defs, namespace, ty)
  {
    var fuel := Cost(ty, k);
    forall u | RewriteType(b, ty, u).Ok?
      ensures SameMeaning(orig, ty, defs, RewriteType(b, ty, u).value.0, namespace)
    {
      PlainMeaning(orig, namespace, ty, either, 0);
      RewrittenMeaning(b, defs, either, k, namespace, ty, u, fuel);
      SameMeaningAt(orig, ty, defs, RewriteType(b, ty, u).value.0, namespace, 0, fuel);
    }
  }

  /** Some bound for the chains, which are finitely many */
  lemma {:induction false} LongestChain(b: Binds, ts: set<SchemaType>) returns (k: nat)
    requires ts <= b.bindings.Keys
    ensures forall t :: t in ts ==> |b.bindings[t]| <= k
    decreases ts
  {
    k := 0;
    if ts != {} {
      var t :| t in ts;
      var rest := LongestChain(b, ts - {t});
      k := rest + |b.bindings[t]|;
    }
  }

  lemma {:induction false} TagsArePositions(es: seq<(string, EntityDecl)>)
    ensures forall t <- TagTypes(es) :: t in EntityPositions(es)
  {
    if es != [] {
      TagsArePositions(es[1..]);
      assert es[0].1.Standard? && es[0].1.tags.Some? ==> DeclPositions(es[0].1)[1] == es[0].1.tags.value;
    }
  }

  lemma TagTypesWithin(schema: Namespace, either: set<string>)
    requires SchemaWithin(schema, either)
    ensures TypesWithin(TagTypes(schema.entityTypes), either)
  {
    TagsArePositions(schema.entityTypes);
    assert forall t <- EntityPositions(schema.entityTypes) :: t in Positions(schema);
  }

  lemma SchemaBindsSound(attributes: seq<SchemaType>, schema: Namespace, u: Unstructured, wide: set<string>)
    requires TypesWithin(attributes, wide) && SchemaWithin(schema, wide) && BindSchema(attributes, schema, u).Ok?
    ensures Sound(BindSchema(attributes, schema, u).value.0, wide)
  {
    var (b1, u0) := BindAll(NO_BINDS, attributes, u).value;
    BindAllSound(NO_BINDS, attributes, u, wide);
    TagTypesWithin(schema, wide);
    BindAllSound(b1, TagTypes(schema.entityTypes), u0, wide);
  }

  /** The bindings a successful run rewrites with, and what is known about them */
  lemma RunBindings(
      attributes: seq<SchemaType>, schema: Namespace, order: KeyOrder, u: Unstructured, wide: set<string>)
    returns (b: Binds, k: nat, u2: Unstructured)
    requires IsOrder(order) && TypesWithin(attributes, wide) && SchemaWithin(schema, wide)
    requires AddCommonTypes(attributes, schema, order, u).Ok?
    ensures BindSchema(attributes, schema, u).Ok? && BindSchema(attributes, schema, u).value.0 == b
    ensures var schema' := AddCommonTypes(attributes, schema, order, u).value.0;
            && Sound(b, wide) && Complete(b, schema'.commonTypes)
            && (forall t :: t in b.bindings ==> 0 < |b.bindings[t]| <= k)
            && RewrittenFrom(b, schema, schema', u2)
  {
    var (b', u1) := BindSchema(attributes, schema, u).value;
    b := b';
    SchemaBindsSound(attributes, schema, u, wide);
    CommonTypesComplete(b, order, u1);
    u2 := ToCommonTypes(b, order(b.bindings.Keys), map[], u1).value.1;
    k := LongestChain(b, b.bindings.Keys);
  }

  /** Whatever the choices and the attribute list, a run keeps the meaning of every entity shape, tag
      type and action context, provided none of the ids it introduces captures an entity-or-common
      name of the schema. */
  lemma MeaningPreserved(
      attributes: seq<SchemaType>, schema: Namespace, order: KeyOrder, u: Unstructured,
      namespace: Option<Name>, wide: set<string>, either: set<string>)
    requires IsOrder(order) && TypesWithin(attributes, wide) && SchemaWithin(schema, wide)
    requires AddCommonTypes(attributes, schema, order, u).Ok?
    requires SchemaWithin(schema, either) && either !! schema.commonTypes.Keys
    requires either !! AddCommonTypes(attributes, schema, order, u).value.0.commonTypes.Keys
    ensures Kept(schema, AddCommonTypes(attributes, schema, order, u).value.0, namespace)
  {
    var b, k, u2 := RunBindings(attributes, schema, order, u, wide);
    var schema' := AddCommonTypes(attributes, schema, order, u).value.0;
    assert Ready(b, schema'.commonTypes, either, k);
    forall ty | ty in Positions(schema)
      ensures TypeKept(b, schema.commonTypes, schema'.commonTypes, namespace, ty)
    {
      RewriteKeepsMeaning(b, schema.commonTypes, schema'.commonTypes, either, k, namespace, ty);
    }
    SchemaKept(b, schema, schema', u2, namespace);
  }

  lemma OnlyPlace(b: Binds, t: SchemaType, i: nat)
    requires Unique(b) && t in b.bindings && i < |b.bindings[t]|
    ensures forall t', i' ::
              t' in b.bindings && 0 <= i' < |b.bindings[t']| && b.bindings[t'][i'] == b.bindings[t][i]
              ==> t' == t && i' == i
  {
  }

  /** The introduced definitions have no cycle: every id is bound to one type, and resolving it
      returns that type's meaning. */
  lemma EveryIdExpands(
      attributes: seq<SchemaType>, schema: Namespace, order: KeyOrder, u: Unstructured,
      namespace: Option<Name>, either: set<string>, id: string)
    returns (t: SchemaType, i: nat)
    requires IsOrder(order) && TypesWithin(attributes, either) && SchemaWithin(schema, either)
    requires AddCommonTypes(attributes, schema, order, u).Ok?
    requires either !! AddCommonTypes(attributes, schema, order, u).value.0.commonTypes.Keys
    requires id in AddCommonTypes(attributes, schema, order, u).value.0.commonTypes
    ensures BindSchema(attributes, schema, u).Ok?
    ensures var b := BindSchema(attributes, schema, u).value.0;
            && t in b.bindings && i < |b.bindings[t]| && b.bindings[t][i] == id
            && (forall t', i' :: t' in b.bindings && 0 <= i' < |b.bindings[t']| && b.bindings[t'][i'] == id
                  ==> t' == t && i' == i)
    ensures ResolvesTo(AddCommonTypes(attributes, schema, order, u).value.0.commonTypes, namespace,
                       CommonTypeRef(Name([], id)), Meaning(namespace, t))
  {
    var b, k, u2 := RunBindings(attributes, schema, order, u, either);
    var defs := AddCommonTypes(attributes, schema, order, u).value.0.commonTypes;
    assert Ready(b, defs, either, k);
    assert Names(b, id);
    t, i :| t in b.bindings && 0 <= i < |b.bindings[t]| && b.bindings[t][i] == id;
    OnlyPlace(b, t, i);
    var fuel := |b.bindings[t]| - i + (Cost(t, k) - k);
    IdMeaning(b, defs, either, k, namespace, t, i, fuel);
    PlainMeaning(map[], namespace, t, either, 0);
  }
}

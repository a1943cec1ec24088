/** Common-type introduction for the two ways in which a schema comes to be: generated, or read from a
    namespace definition. */
module SchemaConstructors {
  import opened Wrappers
  import opened Choices
  import opened SchemaTypes
  import opened CommonTypes
  import opened CommonTypesProofs
  import opened CommonTypesTheorems
  import opened CommonTypesRuns
  import opened CommonTypesReferences
  import opened CommonTypesNames
  import opened CommonTypesCapture
  import opened CommonTypesIds
  import opened SchemaGenerator

  // ----- generated schemas -----

  /** A generated schema is kept by every run, and every id of the run expands to the type it was bound
      to, without any condition. */
  lemma GeneratedSchemaKept(
      additional: bool, maxDepth: nat, outline: Outline, u0: Unstructured, order: KeyOrder, u: Unstructured,
      namespace: Option<Name>)
    requires IsOrder(order) && ArbitrarySchema(additional, maxDepth, outline, u0).Ok?
    requires var schema := ArbitrarySchema(additional, maxDepth, outline, u0).value.0;
             AddCommonTypes(CollectAttributes(schema), schema, order, u).Ok?
    ensures var schema := ArbitrarySchema(additional, maxDepth, outline, u0).value.0;
            var schema' := AddCommonTypes(CollectAttributes(schema), schema, order, u).value.0;
            && Kept(schema, schema', namespace)
            && IdsExpand(CollectAttributes(schema), schema, order, u, namespace)
  {
    GeneratedSchemaPlain(additional, maxDepth, outline, u0, namespace);
    var schema := ArbitrarySchema(additional, maxDepth, outline, u0).value.0;
    CollectedWithin(schema, {});
    TagTypesWithin(schema, {});
    MeaningPreserved(CollectAttributes(schema), schema, order, u, namespace, {}, {});
    WithinUnmentioned(Bindable(CollectAttributes(schema), schema));
    UnmentionedExpand(CollectAttributes(schema), schema, order, u, namespace);
  }

  // ----- schemas read from a definition -----

  /** The attribute types of entity shapes, and the tag types: all that can be bound, up to nesting */
  function DeclaredTypes(es: seq<(string, EntityDecl)>): seq<SchemaType> {
    EntityAttributes(es) + TagTypes(es)
  }

  ghost predicate RecordShapes(es: seq<(string, EntityDecl)>) {
    forall ty <- Shapes(es) :: ty.Record?
  }

  lemma {:induction false} ShapesWithin(es: seq<(string, EntityDecl)>, either: set<string>)
    requires TypesWithin(EntityPositions(es), either)
    ensures TypesWithin(Shapes(es), either)
  {
    if es != [] {
      assert forall ty <- DeclPositions(es[0].1) :: ty in EntityPositions(es);
      assert forall ty <- EntityPositions(es[1..]) :: ty in EntityPositions(es);
      ShapesWithin(es[1..], either);
      if es[0].1.Standard? { assert DeclPositions(es[0].1)[0] == es[0].1.shape; }
    }
  }

  lemma {:induction false} AttrsInWithin(ty: SchemaType, either: set<string>)
    requires Within(ty, either)
    ensures AttrsIn(map[], ty, 0).Done? && TypesWithin(AttrsIn(map[], ty, 0).value, either)
    decreases ty
  {
    match ty
    case Set(element) => AttrsInWithin(element, either);
    case Record(attributes, _) => AttrsInAttributesWithin(attributes, either);
    case _ =>
  }

  lemma {:induction false} AttrsInAttributesWithin(attributes: seq<Attribute>, either: set<string>)
    requires forall a <- attributes :: Within(a.ty, either)
    ensures AttrsInAttributes(map[], attributes, 0).Done?
    ensures TypesWithin(AttrsInAttributes(map[], attributes, 0).value, either)
    decreases attributes
  {
    if attributes != [] {
      assert attributes[0] in attributes;
      AttrsInWithin(attributes[0].ty, either);
      AttrsInAttributesWithin(attributes[1..], either);
    }
  }

  lemma {:induction false} AttrsInAllWithin(tys: seq<SchemaType>, either: set<string>)
    requires TypesWithin(tys, either)
    ensures AttrsInAll(map[], tys, 0).Done? && TypesWithin(AttrsInAll(map[], tys, 0).value, either)
  {
    if tys != [] {
      assert tys[0] in tys;
      AttrsInWithin(tys[0], either);
      AttrsInAllWithin(tys[1..], either);
    }
  }

  /** Entity types have no attributes of their own. */
  lemma {:induction false} EntitiesEndNesting(attributes: seq<Attribute>)
    requires forall a <- attributes :: a.ty.Entity?
    ensures AttrsInAttributes(map[], attributes, 0) == Done([])
  {
    if attributes != [] {
      assert attributes[0] in attributes;
      EntitiesEndNesting(attributes[1..]);
      var none: seq<SchemaType> := [];
      assert AttrsIn(map[], attributes[0].ty, 0) == Done(none) && none + none == none;
    }
  }

  lemma ShapeAttributes(shape: SchemaType, n: Name, namespace: Option<Name>, either: set<string>)
    requires shape.Record? && Within(shape, either)
    ensures AttrsIn(map[], shape, 0).Done?
    ensures (forall ty <- AttrsIn(map[], shape, 0).value :: SameEntity(ty, n, namespace))
       <==> (forall ty <- AttributeTypes(shape) :: SameEntity(ty, n, namespace))
  {
    AttrsInWithin(shape, either);
    var all := AttrsIn(map[], shape, 0).value;
    assert forall ty <- AttributeTypes(shape) :: ty in all;
    if forall ty <- AttributeTypes(shape) :: SameEntity(ty, n, namespace) {
      forall a | a in shape.attributes
        ensures a.ty.Entity?
      {
        var j :| 0 <= j < |shape.attributes| && shape.attributes[j] == a;
        assert AttributeTypes(shape)[j] == a.ty && a.ty in AttributeTypes(shape);
      }
      EntitiesEndNesting(shape.attributes);
    }
  }

  /** Nested attributes add no condition: where all attributes are entities there are none. */
  lemma {:induction false} NestedAttributes(
      es: seq<(string, EntityDecl)>, n: Name, namespace: Option<Name>, either: set<string>)
    requires RecordShapes(es) && TypesWithin(Shapes(es), either)
    ensures AttrsInAll(map[], Shapes(es), 0).Done?
    ensures (forall ty <- AttrsInAll(map[], Shapes(es), 0).value :: SameEntity(ty, n, namespace))
       <==> (forall ty <- EntityAttributes(es) :: SameEntity(ty, n, namespace))
  {
    if es != [] {
      assert Shapes(es) == (if es[0].1.Standard? then [es[0].1.shape] else []) + Shapes(es[1..]);
      NestedAttributes(es[1..], n, namespace, either);
      var here := if es[0].1.Standard? then AttributeTypes(es[0].1.shape) else [];
      assert EntityAttributes(es) == here + EntityAttributes(es[1..]);
      if es[0].1.Standard? {
        var shape := es[0].1.shape;
        assert shape in Shapes(es) && Shapes(es)[1..] == Shapes(es[1..]);
        ShapeAttributes(shape, n, namespace, either);
        assert AttrsInAll(map[], Shapes(es), 0)
            == Append(AttrsIn(map[], shape, 0), AttrsInAll(map[], Shapes(es[1..]), 0));
      }
    }
  }

  lemma CollectedFromShapes(schema: Namespace, either: set<string>)
    requires schema.commonTypes == map[] && SchemaWithin(schema, either)
    ensures CollectFromDefinition(schema, [], 0) == AttrsInAll(map[], Shapes(schema.entityTypes), 0)
    ensures TypesWithin(Shapes(schema.entityTypes), either)
    ensures AttrsInAll(map[], Shapes(schema.entityTypes), 0).Done?
    ensures TypesWithin(AttrsInAll(map[], Shapes(schema.entityTypes), 0).value, either)
  {
    var shapes := Shapes(schema.entityTypes);
    assert forall ty <- EntityPositions(schema.entityTypes) :: ty in Positions(schema);
    ShapesWithin(schema.entityTypes, either);
    AttrsInAllWithin(shapes, either);
    assert [] + shapes == shapes;
  }

  lemma EqualConditions(schema: Namespace, attributes: seq<SchemaType>, namespace: Option<Name>, n: Name)
    requires (forall ty <- attributes :: SameEntity(ty, n, namespace))
        <==> (forall ty <- EntityAttributes(schema.entityTypes) :: SameEntity(ty, n, namespace))
    ensures (forall ty <- Bindable(attributes, schema) :: SameEntity(ty, n, namespace))
       <==> (forall ty <- DeclaredTypes(schema.entityTypes) :: SameEntity(ty, n, namespace))
  {
    var declared := EntityAttributes(schema.entityTypes);
    assert forall ty <- attributes :: ty in Bindable(attributes, schema);
    assert forall ty <- declared :: ty in DeclaredTypes(schema.entityTypes);
    assert forall ty <- TagTypes(schema.entityTypes) ::
        ty in Bindable(attributes, schema) && ty in DeclaredTypes(schema.entityTypes);
  }

  /** All attributes of entity shapes and all tags have the entity type of each entity-or-common name. */
  ghost predicate DeclaredEntities(schema: Namespace, namespace: Option<Name>) {
    forall n | SchemaMentions(schema, n) :: AllDeclaredAs(schema, namespace, n)
  }

  ghost predicate AllDeclaredAs(schema: Namespace, namespace: Option<Name>, n: Name) {
    forall ty <- DeclaredTypes(schema.entityTypes) :: SameEntity(ty, n, namespace)
  }

  lemma DeclaredUncapturable(
      schema: Namespace, attributes: seq<SchemaType>, namespace: Option<Name>, either: set<string>)
    requires schema.commonTypes == map[] && SchemaWithin(schema, either) && RecordShapes(schema.entityTypes)
    requires CollectFromDefinition(schema, [], 0) == Done(attributes)
    ensures Uncapturable(attributes, schema, namespace) <==> DeclaredEntities(schema, namespace)
  {
    CollectedFromShapes(schema, either);
    forall n
      ensures NameSafe(attributes, schema, namespace, n) <==> AllDeclaredAs(schema, namespace, n)
    {
      assert Resolve(map[], namespace, EntityOrCommon(n), 0) == Done(EntityType(Qualify(n, namespace)));
      NestedAttributes(schema.entityTypes, n, namespace, either);
      EqualConditions(schema, attributes, namespace, n);
    }
  }

  /** A definition without common types is kept by every run exactly when, for each entity-or-common
      name in it, all attributes of entity shapes and all tags have that very entity type. */
  lemma DefinitionKeptIff(schema: Namespace, order: KeyOrder, namespace: Option<Name>, ids: iset<string>)
    requires IsOrder(order) && schema.commonTypes == map[] && ReferenceFree([], schema)
    requires RecordShapes(schema.entityTypes) && Denotes(schema, namespace)
    requires forall n | SchemaMentions(schema, n) :: n.base in ids
    ensures CollectFromDefinition(schema, [], 0).Done?
    ensures var attributes := CollectFromDefinition(schema, [], 0).value;
            (forall u | TextsIn(u, ids) && AddCommonTypes(attributes, schema, order, u).Ok? ::
               Kept(schema, AddCommonTypes(attributes, schema, order, u).value.0, namespace))
            <==> DeclaredEntities(schema, namespace)
  {
    var either := EitherNames([], schema);
    NamesSuffice([], schema);
    CollectedFromShapes(schema, either);
    var attributes := CollectFromDefinition(schema, [], 0).value;
    ListedFree(attributes, either);
    DeclaredUncapturable(schema, attributes, namespace, either);
    AlwaysKeptIff(attributes, schema, order, namespace, ids);
  }

  // ----- its ids -----

  /** Attributes at any level are parts of the type. */
  lemma {:induction false} AttrsInMentions(ty: SchemaType, part: SchemaType, n: Name)
    requires AttrsIn(map[], ty, 0).Done? && part in AttrsIn(map[], ty, 0).value && Mentions(part, n)
    ensures Mentions(ty, n)
    decreases ty
  {
    match ty
    case Set(element) => AttrsInMentions(element, part, n);
    case Record(attributes, _) =>
      if part in AttributeTypes(ty) {
        var j :| 0 <= j < |attributes| && attributes[j].ty == part;
        assert attributes[j] in attributes;
      } else {
        AttrsInAttributesMention(attributes, part, n);
      }
    case _ =>
  }

  lemma {:induction false} AttrsInAttributesMention(attributes: seq<Attribute>, part: SchemaType, n: Name)
    requires AttrsInAttributes(map[], attributes, 0).Done?
    requires part in AttrsInAttributes(map[], attributes, 0).value && Mentions(part, n)
    ensures exists a <- attributes :: Mentions(a.ty, n)
    decreases attributes
  {
    assert attributes[0] in attributes;
    if part in AttrsIn(map[], attributes[0].ty, 0).value {
      AttrsInMentions(attributes[0].ty, part, n);
    } else {
      AttrsInAttributesMention(attributes[1..], part, n);
    }
  }

  /** When a type denotes something, so do all attributes in it. */
  lemma {:induction false} AttrsInDone(ty: SchemaType, part: SchemaType, namespace: Option<Name>)
    requires AttrsIn(map[], ty, 0).Done? && part in AttrsIn(map[], ty, 0).value && Meaning(namespace, ty).Done?
    ensures Meaning(namespace, part).Done?
    decreases ty
  {
    match ty
    case Set(element) => AttrsInDone(element, part, namespace);
    case Record(attributes, _) =>
      if part in AttributeTypes(ty) {
        var j :| 0 <= j < |attributes| && attributes[j].ty == part;
        AttributeDone(namespace, attributes, j);
      } else {
        AttrsInAttributesDone(attributes, part, namespace);
      }
    case _ =>
  }

  lemma {:induction false} AttrsInAttributesDone(attributes: seq<Attribute>, part: SchemaType, namespace: Option<Name>)
    requires AttrsInAttributes(map[], attributes, 0).Done? && part in AttrsInAttributes(map[], attributes, 0).value
    requires ResolveAttributes(map[], namespace, attributes, 0).Done?
    ensures Meaning(namespace, part).Done?
    decreases attributes
  {
    if part in AttrsIn(map[], attributes[0].ty, 0).value {
      AttrsInDone(attributes[0].ty, part, namespace);
    } else {
      AttrsInAttributesDone(attributes[1..], part, namespace);
    }
  }

  /** Each listed attribute comes from some type of the list. */
  lemma {:induction false} AttrsInAllFrom(tys: seq<SchemaType>, part: SchemaType) returns (ty: SchemaType)
    requires AttrsInAll(map[], tys, 0).Done? && part in AttrsInAll(map[], tys, 0).value
    ensures ty in tys && AttrsIn(map[], ty, 0).Done? && part in AttrsIn(map[], ty, 0).value
  {
    if part in AttrsIn(map[], tys[0], 0).value {
      ty := tys[0];
    } else {
      ty := AttrsInAllFrom(tys[1..], part);
    }
  }

  lemma {:induction false} AttrsInAllHas(tys: seq<SchemaType>, ty: SchemaType)
    requires AttrsInAll(map[], tys, 0).Done? && ty in tys
    ensures AttrsIn(map[], ty, 0).Done?
    ensures forall part <- AttrsIn(map[], ty, 0).value :: part in AttrsInAll(map[], tys, 0).value
  {
    if ty != tys[0] { AttrsInAllHas(tys[1..], ty); }
  }

  lemma {:induction false} ShapesArePositions(es: seq<(string, EntityDecl)>)
    ensures forall ty <- EntityPositions(es) :: ty in Shapes(es) || ty in TagTypes(es)
    ensures forall ty <- Shapes(es) :: ty in EntityPositions(es)
  {
    if es != [] { ShapesArePositions(es[1..]); }
  }

  /** What a definition can bind mentions a name exactly when an entity shape or a tag type does. */
  lemma ListedMentions(es: seq<(string, EntityDecl)>, attributes: seq<SchemaType>)
    requires RecordShapes(es) && AttrsInAll(map[], Shapes(es), 0) == Done(attributes)
    ensures NoneMentioned(attributes + TagTypes(es)) <==> NoneMentioned(EntityPositions(es))
  {
    var tys := attributes + TagTypes(es);
    ShapesArePositions(es);
    TagsArePositions(es);
    forall ty, n | ty in tys && Mentions(ty, n)
      ensures exists x <- EntityPositions(es) :: Mentions(x, n)
    {
      if ty in attributes {
        var shape := AttrsInAllFrom(Shapes(es), ty);
        AttrsInMentions(shape, ty, n);
      }
    }
    forall ty, n | ty in EntityPositions(es) && Mentions(ty, n)
      ensures exists x <- tys :: Mentions(x, n)
    {
      if ty in Shapes(es) {
        ShapeLists(es, attributes, ty, n);
      } else {
        assert ty in tys;
      }
    }
  }

  lemma ShapeLists(es: seq<(string, EntityDecl)>, attributes: seq<SchemaType>, shape: SchemaType, n: Name)
    requires RecordShapes(es) && AttrsInAll(map[], Shapes(es), 0) == Done(attributes)
    requires shape in Shapes(es) && Mentions(shape, n)
    ensures exists x <- attributes + TagTypes(es) :: Mentions(x, n)
  {
    AttrsInAllHas(Shapes(es), shape);
    var j :| 0 <= j < |shape.attributes| && Mentions(shape.attributes[j].ty, n);
    var x := shape.attributes[j].ty;
    assert AttributeTypes(shape)[j] == x;
    assert x in AttrsIn(map[], shape, 0).value;
    assert x in attributes + TagTypes(es);
  }

  lemma ListedDone(schema: Namespace, attributes: seq<SchemaType>, namespace: Option<Name>)
    requires AttrsInAll(map[], Shapes(schema.entityTypes), 0) == Done(attributes) && Denotes(schema, namespace)
    ensures forall ty <- Bindable(attributes, schema) :: Meaning(namespace, ty).Done?
  {
    var es := schema.entityTypes;
    ShapesArePositions(es);
    TagsArePositions(es);
    assert forall ty <- EntityPositions(es) :: ty in Positions(schema);
    forall ty | ty in attributes
      ensures Meaning(namespace, ty).Done?
    {
      var shape := AttrsInAllFrom(Shapes(es), ty);
      AttrsInDone(shape, ty, namespace);
    }
  }

  /** After every run on a definition without common types, every id expands to the type it was bound
      to, exactly when no entity shape and no tag type mentions an entity-or-common name. */
  lemma DefinitionIdsIff(schema: Namespace, order: KeyOrder, namespace: Option<Name>, ids: iset<string>)
    requires IsOrder(order) && schema.commonTypes == map[] && ReferenceFree([], schema)
    requires RecordShapes(schema.entityTypes) && Denotes(schema, namespace)
    requires forall n | SchemaMentions(schema, n) :: n.base in ids
    ensures CollectFromDefinition(schema, [], 0).Done?
    ensures var attributes := CollectFromDefinition(schema, [], 0).value;
            (forall u | TextsIn(u, ids) && AddCommonTypes(attributes, schema, order, u).Ok? ::
               IdsExpand(attributes, schema, order, u, namespace))
            <==> NoneMentioned(EntityPositions(schema.entityTypes))
  {
    var either := EitherNames([], schema);
    NamesSuffice([], schema);
    CollectedFromShapes(schema, either);
    var attributes := CollectFromDefinition(schema, [], 0).value;
    ListedFree(attributes, either);
    ListedMentions(schema.entityTypes, attributes);
    ListedDone(schema, attributes, namespace);
    forall ty, n | ty in Bindable(attributes, schema) && Mentions(ty, n)
      ensures n.base in ids
    {
      BindableMentions(schema, attributes, ty, n);
    }
    IdsExpandIff(attributes, schema, order, namespace, ids);
  }

  lemma BindableMentions(schema: Namespace, attributes: seq<SchemaType>, ty: SchemaType, n: Name)
    requires AttrsInAll(map[], Shapes(schema.entityTypes), 0) == Done(attributes)
    requires ty in Bindable(attributes, schema) && Mentions(ty, n)
    ensures SchemaMentions(schema, n)
  {
    var es := schema.entityTypes;
    ShapesArePositions(es);
    TagsArePositions(es);
    assert forall x <- EntityPositions(es) :: x in Positions(schema);
    if ty in attributes {
      var shape := AttrsInAllFrom(Shapes(es), ty);
      AttrsInMentions(shape, ty, n);
      assert shape in Positions(schema);
    } else {
      assert ty in Positions(schema);
    }
  }

  lemma ListedFree(attributes: seq<SchemaType>, either: set<string>)
    requires TypesWithin(attributes, either)
    ensures forall ty <- attributes :: NoReference(ty)
  {
    forall ty | ty in attributes
      ensures NoReference(ty)
    {
      WithinIsFree(ty, either);
    }
  }

  // ----- both cases occur -----

  function OneType(attributes: seq<Attribute>, context: seq<Attribute>): Namespace {
    Namespace(
      map[],
      [("E", Standard([], Record(attributes, false), None))],
      [("a", ActionDecl(None, Some(ApplySpec([], [], Record(context, false)))))])
  }

  const MENTION := Attribute("x", EntityOrCommon(Name([], "E")), true, map[])

  lemma OneTypePositions(attributes: seq<Attribute>, context: seq<Attribute>)
    ensures Positions(OneType(attributes, context)) == [Record(attributes, false), Record(context, false)]
    ensures Shapes(OneType(attributes, context).entityTypes) == [Record(attributes, false)]
    ensures DeclaredTypes(OneType(attributes, context).entityTypes) == AttributeTypes(Record(attributes, false))
  {
    var schema := OneType(attributes, context);
    var es, acts := schema.entityTypes, schema.actions;
    assert es[1..] == [] && acts[1..] == [];
    assert EntityPositions(es) == [Record(attributes, false)] + EntityPositions([]);
    assert ActionPositions(acts) == [Record(context, false)] + ActionPositions([]);
    assert EntityAttributes(es) == AttributeTypes(Record(attributes, false)) + EntityAttributes([]);
    assert TagTypes(es) == TagTypes([]);
  }

  lemma OneRecord(attributes: seq<Attribute>)
    requires attributes == [] || attributes == [MENTION]
    ensures NoReference(Record(attributes, false)) && Meaning(None, Record(attributes, false)).Done?
    ensures forall n | Mentions(Record(attributes, false), n) :: n == Name([], "E")
    ensures attributes == [MENTION] ==> Mentions(Record(attributes, false), Name([], "E"))
  {
    AttributesResolve(attributes, None);
    if attributes == [MENTION] {
      assert MENTION in attributes && Mentions(MENTION.ty, Name([], "E"));
    }
  }

  lemma OneTypeMentions(attributes: seq<Attribute>, context: seq<Attribute>)
    requires attributes == [] || attributes == [MENTION]
    requires context == [] || context == [MENTION]
    ensures forall n | SchemaMentions(OneType(attributes, context), n) :: n == Name([], "E")
    ensures attributes == [MENTION] ==> SchemaMentions(OneType(attributes, context), Name([], "E"))
    ensures ReferenceFree([], OneType(attributes, context)) && Denotes(OneType(attributes, context), None)
  {
    OneTypePositions(attributes, context);
    OneRecord(attributes);
    OneRecord(context);
    assert Record(attributes, false) in Positions(OneType(attributes, context));
  }

  /** An entity type `E` with an attribute of type `E`, written as an entity-or-common name: some run
      changes its meaning. */
  lemma AttributeCaptured(order: KeyOrder, ids: iset<string>) returns (u: Unstructured)
    requires IsOrder(order) && "E" in ids
    ensures var schema := OneType([MENTION], []);
            var collected := CollectFromDefinition(schema, [], 0);
            && collected.Done? && TextsIn(u, ids) && AddCommonTypes(collected.value, schema, order, u).Ok?
            && !Kept(schema, AddCommonTypes(collected.value, schema, order, u).value.0, None)
  {
    var schema := OneType([MENTION], []);
    OneTypePositions([MENTION], []);
    OneTypeMentions([MENTION], []);
    assert AttributeTypes(Record([MENTION], false))[0] == MENTION.ty;
    assert MENTION.ty in DeclaredTypes(schema.entityTypes) && !SameEntity(MENTION.ty, Name([], "E"), None);
    assert !AllDeclaredAs(schema, None, Name([], "E"));
    DefinitionKeptIff(schema, order, None, ids);
    var attributes := CollectFromDefinition(schema, [], 0).value;
    u :| TextsIn(u, ids) && AddCommonTypes(attributes, schema, order, u).Ok?
      && !Kept(schema, AddCommonTypes(attributes, schema, order, u).value.0, None);
  }

  /** The same name in an action context alone, where there is nothing to bind: every run keeps it. */
  lemma ContextNotCaptured(order: KeyOrder, ids: iset<string>, u: Unstructured)
    requires IsOrder(order) && "E" in ids && TextsIn(u, ids)
    ensures var schema := OneType([], [MENTION]);
            var collected := CollectFromDefinition(schema, [], 0);
            && collected.Done?
            && (AddCommonTypes(collected.value, schema, order, u).Ok?
                ==> Kept(schema, AddCommonTypes(collected.value, schema, order, u).value.0, None))
  {
    var schema := OneType([], [MENTION]);
    OneTypePositions([], [MENTION]);
    OneTypeMentions([], [MENTION]);
    DefinitionKeptIff(schema, order, None, ids);
  }

  /** In the first of the two schemas, some run gives `E` a definition that never ends. */
  lemma AttributeCyclic(order: KeyOrder, ids: iset<string>) returns (u: Unstructured)
    requires IsOrder(order) && "E" in ids
    ensures var schema := OneType([MENTION], []);
            var collected := CollectFromDefinition(schema, [], 0);
            && collected.Done? && TextsIn(u, ids) && AddCommonTypes(collected.value, schema, order, u).Ok?
            && Cyclic(AddCommonTypes(collected.value, schema, order, u).value.0.commonTypes, None, "E")
  {
    var schema, n := OneType([MENTION], []), Name([], "E");
    OneTypePositions([MENTION], []);
    OneTypeMentions([MENTION], []);
    var either := EitherNames([], schema);
    NamesSuffice([], schema);
    CollectedFromShapes(schema, either);
    var attributes := CollectFromDefinition(schema, [], 0).value;
    ListedFree(attributes, either);
    var shape := Record([MENTION], false);
    AttrsInAllHas(Shapes(schema.entityTypes), shape);
    assert AttributeTypes(shape)[0] == MENTION.ty && MENTION.ty in attributes;
    var p :| 0 <= p < |attributes| && attributes[p] == MENTION.ty;
    assert Bindable(attributes, schema)[p] == MENTION.ty && Mentions(MENTION.ty, n);
    u := CyclicRun(attributes, schema, order, None, ids, p, n);
  }
}

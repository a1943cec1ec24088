/** The generator of schemas, as far as they carry types, and the attribute lists kept with a schema. */
module SchemaGenerator {
  import opened Wrappers
  import opened Choices
  import opened SchemaTypes
  import opened CommonTypes
  import opened CommonTypesProofs
  import opened CommonTypesTheorems

  // ----- schema types of bounded depth -----

  /** `u.arbitrary::<IndexSet<String>>()` */
  function ReadNames(names: seq<string>, u: Unstructured): Drawn<(seq<string>, Unstructured)>
    decreases |u|
  {
    var (more, u1) :- ReadFlip(u);
    if !more then Ok((names, u1))
    else
      var (name, u2) :- ReadText(u1);
      ReadNames(if name in names then names else names + [name], u2)
  }

  /** `u.arbitrary::<Vec<Id>>()`, which may repeat a name */
  function ReadList(names: seq<string>, u: Unstructured): Drawn<(seq<string>, Unstructured)>
    decreases |u|
  {
    var (more, u1) :- ReadFlip(u);
    if !more then Ok((names, u1))
    else
      var (name, u2) :- ReadText(u1);
      ReadList(names + [name], u2)
  }

  function ReadAdditional(enabled: bool, u: Unstructured): Drawn<(bool, Unstructured)> {
    if enabled then ReadFlip(u) else Ok((false, u))
  }

  /** The order of keys */
  predicate Before(a: string, b: string) {
    b != [] && (a == [] || a[0] < b[0] || (a[0] == b[0] && Before(a[1..], b[1..])))
  }

  /** Collecting into a sorted map, where a later attribute of the same name wins */
  function PutFirst(a: Attribute, later: seq<Attribute>): seq<Attribute> {
    if later == [] || Before(a.key, later[0].key) then [a] + later
    else if a.key == later[0].key then later
    else [later[0]] + PutFirst(a, later[1..])
  }

  /** `arbitrary_schematype_with_bounded_depth` */
  function ArbitrarySchemaType(additional: bool, entityTypes: seq<Name>, maxDepth: nat, u: Unstructured)
    : Drawn<(SchemaType, Unstructured)>
    decreases maxDepth, 1, 0
  {
    var (x, u1) :- ReadIndex(u, 10);
    if x == 0 then Ok((String, u1))
    else if x == 1 then Ok((Long, u1))
    else if x == 2 then Ok((Boolean, u1))
    else if x == 3 then
      if maxDepth == 0 then Ok((Set(Long), u1))
      else
        var (element, u2) :- ArbitrarySchemaType(additional, entityTypes, maxDepth - 1, u1);
        Ok((Set(element), u2))
    else if x == 4 then
      if maxDepth == 0 then
        var (extra, u2) :- ReadAdditional(additional, u1);
        Ok((Record([], extra), u2))
      else
        var (names, u2) :- ReadNames([], u1);
        var (attributes, u3) :- ArbitraryAttributes(additional, entityTypes, maxDepth - 1, names, u2);
        var (extra, u4) :- ReadAdditional(additional, u3);
        Ok((Record(attributes, extra), u4))
    else if x == 5 then
      var (i, u2) :- ReadIndex(u1, |entityTypes|);
      Ok((Entity(entityTypes[i]), u2))
    else if x == 6 then Ok((Extension("ipaddr"), u1))
    else if x == 7 then Ok((Extension("decimal"), u1))
    else if x == 8 then Ok((Extension("datetime"), u1))
    else Ok((Extension("duration"), u1))
  }

  /** `arbitrary_typeofattribute_with_bounded_depth` for each name */
  function ArbitraryAttributes(
      additional: bool, entityTypes: seq<Name>, maxDepth: nat, names: seq<string>, u: Unstructured)
    : Drawn<(seq<Attribute>, Unstructured)>
    decreases maxDepth, 2, |names|
  {
    if names == [] then Ok(([], u))
    else
      var (ty, u1) :- ArbitrarySchemaType(additional, entityTypes, maxDepth, u);
      var (required, u2) :- ReadFlip(u1);
      var (notes, u3) :- ReadNotes(u2);
      var (later, u4) :- ArbitraryAttributes(additional, entityTypes, maxDepth, names[1..], u3);
      Ok((PutFirst(Attribute(names[0], ty, required, notes), later), u4))
  }

  // ----- whole schemas -----

  /** `arbitrary_attrspec` */
  function ArbitraryAttrspec(additional: bool, entityTypes: seq<Name>, maxDepth: nat, u: Unstructured)
    : Drawn<(SchemaType, Unstructured)>
  {
    var (names, u1) :- ReadList([], u);
    var (attributes, u2) :- ArbitraryAttributes(additional, entityTypes, maxDepth, names, u1);
    var (extra, u3) :- ReadAdditional(additional, u2);
    Ok((Record(attributes, extra), u3))
  }

  function ArbitraryTags(additional: bool, entityTypes: seq<Name>, maxDepth: nat, u: Unstructured)
    : Drawn<(Option<SchemaType>, Unstructured)>
  {
    var (x, u1) :- ReadIndex(u, 2);
    if x == 0 then Ok((None, u1))
    else
      var (ty, u2) :- ArbitrarySchemaType(additional, entityTypes, maxDepth, u1);
      Ok((Some(ty), u2))
  }

  function ArbitraryDecl(
      additional: bool, entityTypes: seq<Name>, maxDepth: nat, parents: seq<Name>, u: Unstructured)
    : Drawn<(EntityDecl, Unstructured)>
  {
    var (x, u1) :- ReadIndex(u, 5);
    if x == 0 then
      var (choices, u2) :- ReadList([], u1);
      var (_, u3) :- ReadNotes(u2);
      Ok((Enum(choices), u3))
    else
      var (shape, u2) :- ArbitraryAttrspec(additional, entityTypes, maxDepth, u1);
      var (tags, u3) :- ArbitraryTags(additional, entityTypes, maxDepth, u2);
      var (_, u4) :- ReadNotes(u3);
      Ok((Standard(parents, shape, tags), u4))
  }

  /** What declares no type: the names, the parents of entity types, and the groups, resource types and
      principal types of actions.  They are arbitrary here. */
  datatype Outline = Outline(
    entityTypes: seq<Name>,
    entities: seq<(string, seq<Name>)>,
    actions: seq<(string, Option<seq<Name>>, seq<Name>, seq<Name>)>)

  function ArbitraryDecls(
      additional: bool, entityTypes: seq<Name>, maxDepth: nat, entities: seq<(string, seq<Name>)>, u: Unstructured)
    : Drawn<(seq<(string, EntityDecl)>, Unstructured)>
    decreases entities
  {
    if entities == [] then Ok(([], u))
    else
      var (e, u1) :- ArbitraryDecl(additional, entityTypes, maxDepth, entities[0].1, u);
      var (rest, u2) :- ArbitraryDecls(additional, entityTypes, maxDepth, entities[1..], u1);
      Ok(([(entities[0].0, e)] + rest, u2))
  }

  function ArbitraryActions(
      additional: bool, entityTypes: seq<Name>, maxDepth: nat,
      actions: seq<(string, Option<seq<Name>>, seq<Name>, seq<Name>)>, u: Unstructured)
    : Drawn<(seq<(string, ActionDecl)>, Unstructured)>
    decreases actions
  {
    if actions == [] then Ok(([], u))
    else
      var (name, memberOf, resourceTypes, principalTypes) := actions[0];
      var (context, u1) :- ArbitraryAttrspec(additional, entityTypes, maxDepth, u);
      var (_, u2) :- ReadNotes(u1);
      var (rest, u3) :- ArbitraryActions(additional, entityTypes, maxDepth, actions[1..], u2);
      Ok(([(name, ActionDecl(memberOf, Some(ApplySpec(resourceTypes, principalTypes, context))))] + rest, u3))
  }

  /** The namespace definition that `Schema::arbitrary` generates */
  function ArbitrarySchema(additional: bool, maxDepth: nat, outline: Outline, u: Unstructured)
    : Drawn<(Namespace, Unstructured)>
  {
    var (entities, u1) :- ArbitraryDecls(additional, outline.entityTypes, maxDepth, outline.entities, u);
    var (actions, u2) :- ArbitraryActions(additional, outline.entityTypes, maxDepth, outline.actions, u1);
    Ok((Namespace(map[], entities, actions), u2))
  }

  // ----- the attribute lists -----

  function AttributeTypes(ty: SchemaType): seq<SchemaType> {
    if ty.Record? then seq(|ty.attributes|, i requires 0 <= i < |ty.attributes| => ty.attributes[i].ty) else []
  }

  function EntityAttributes(es: seq<(string, EntityDecl)>): seq<SchemaType> {
    if es == [] then []
    else (if es[0].1.Standard? then AttributeTypes(es[0].1.shape) else []) + EntityAttributes(es[1..])
  }

  function ActionAttributes(acts: seq<(string, ActionDecl)>): seq<SchemaType> {
    if acts == [] then []
    else (if acts[0].1.appliesTo.Some? then AttributeTypes(acts[0].1.appliesTo.value.context) else [])
         + ActionAttributes(acts[1..])
  }

  /** `Schema::arbitrary` lists the attributes of all entity shapes and action contexts. */
  function CollectAttributes(schema: Namespace): seq<SchemaType> {
    EntityAttributes(schema.entityTypes) + ActionAttributes(schema.actions)
  }

  /** `attrs_in_schematype`, which follows references and therefore needs fuel */
  function AttrsIn(defs: Definitions, ty: SchemaType, fuel: nat): Outcome<seq<SchemaType>>
    decreases fuel, ty, 0
  {
    match ty
    case CommonTypeRef(name) =>
      if name.base !in defs then Done([])
      else if fuel == 0 then OutOfFuel else AttrsIn(defs, defs[name.base], fuel - 1)
    case EntityOrCommon(name) =>
      if name.base !in defs then Done([])
      else if fuel == 0 then OutOfFuel else AttrsIn(defs, defs[name.base], fuel - 1)
    case Set(element) => AttrsIn(defs, element, fuel)
    case Record(attributes, _) => (
      match AttrsInAttributes(defs, attributes, fuel)
      case Done(nested) => Done(AttributeTypes(ty) + nested)
      case Panic => Panic
      case OutOfFuel => OutOfFuel
    )
    case _ => Done([])
  }

  function Append(first: Outcome<seq<SchemaType>>, second: Outcome<seq<SchemaType>>): Outcome<seq<SchemaType>> {
    match (first, second)
    case (Done(x), Done(y)) => Done(x + y)
    case _ => OutOfFuel
  }

  function AttrsInAttributes(defs: Definitions, attributes: seq<Attribute>, fuel: nat): Outcome<seq<SchemaType>>
    decreases fuel, attributes
  {
    if attributes == [] then Done([])
    else Append(AttrsIn(defs, attributes[0].ty, fuel), AttrsInAttributes(defs, attributes[1..], fuel))
  }

  function AttrsInAll(defs: Definitions, tys: seq<SchemaType>, fuel: nat): Outcome<seq<SchemaType>> {
    if tys == [] then Done([]) else Append(AttrsIn(defs, tys[0], fuel), AttrsInAll(defs, tys[1..], fuel))
  }

  function Shapes(es: seq<(string, EntityDecl)>): seq<SchemaType> {
    if es == [] then []
    else if es[0].1.Standard? then [es[0].1.shape] + Shapes(es[1..])
    else Shapes(es[1..])
  }

  /** `Schema::from_nsdef` lists the attributes, at every level, of all definitions, in the order of
      their ids, and of all entity shapes, but not of action contexts. */
  function CollectFromDefinition(schema: Namespace, ids: seq<string>, fuel: nat): Outcome<seq<SchemaType>>
    requires forall id <- ids :: id in schema.commonTypes
  {
    var bodies := seq(|ids|, i requires 0 <= i < |ids| => assert ids[i] in ids; schema.commonTypes[ids[i]]);
    AttrsInAll(schema.commonTypes, bodies + Shapes(schema.entityTypes), fuel)
  }

  // ----- generated schemas have no names to resolve -----

  /** No references and no entity-or-common names, and it denotes a type */
  ghost predicate Plain(ty: SchemaType, namespace: Option<Name>) {
    Within(ty, {}) && Meaning(namespace, ty).Done?
  }

  lemma {:induction false} PutFirstMembers(a: Attribute, later: seq<Attribute>)
    ensures forall x <- PutFirst(a, later) :: x == a || x in later
  {
    if later != [] { PutFirstMembers(a, later[1..]); }
  }

  /** Attributes resolve when their types do, each to its own type. */
  lemma {:induction false} AttributesResolve(attributes: seq<Attribute>, namespace: Option<Name>)
    requires forall a <- attributes :: Meaning(namespace, a.ty).Done?
    ensures var outcome := ResolveAttributes(map[], namespace, attributes, 0);
            && outcome.Done?
            && forall f <- outcome.value :: exists a <- attributes :: Meaning(namespace, a.ty) == Done(f.ty)
    decreases attributes
  {
    if attributes != [] {
      assert attributes[0] in attributes;
      AttributesResolve(attributes[1..], namespace);
      var outcome := ResolveAttributes(map[], namespace, attributes, 0);
      forall f | f in outcome.value
        ensures exists a <- attributes :: Meaning(namespace, a.ty) == Done(f.ty)
      {
        if f != outcome.value[0] {
          assert f in outcome.value[1..];
          var a :| a in attributes[1..] && Meaning(namespace, a.ty) == Done(f.ty);
          assert a in attributes;
        }
      }
    }
  }

  lemma {:induction false} GeneratedTypePlain(
      additional: bool, entityTypes: seq<Name>, maxDepth: nat, u: Unstructured, namespace: Option<Name>)
    requires ArbitrarySchemaType(additional, entityTypes, maxDepth, u).Ok?
    ensures Plain(ArbitrarySchemaType(additional, entityTypes, maxDepth, u).value.0, namespace)
    decreases maxDepth, 1, 0
  {
    var (x, u1) := ReadIndex(u, 10).value;
    if x == 3 && maxDepth > 0 {
      GeneratedTypePlain(additional, entityTypes, maxDepth - 1, u1, namespace);
    } else if x == 4 && maxDepth > 0 {
      var (names, u2) := ReadNames([], u1).value;
      GeneratedAttributesPlain(additional, entityTypes, maxDepth - 1, names, u2, namespace);
      AttributesResolve(ArbitraryAttributes(additional, entityTypes, maxDepth - 1, names, u2).value.0, namespace);
    } else {
      assert Meaning(namespace, Long) == Done(LongType);
      assert ResolveExtension("datetime") == Done(DateTimeType) && ResolveExtension("duration") == Done(DurationType);
      assert ResolveExtension("ipaddr") == Done(IpAddrType) && ResolveExtension("decimal") == Done(DecimalType);
    }
  }

  lemma {:induction false} GeneratedAttributesPlain(
      additional: bool, entityTypes: seq<Name>, maxDepth: nat, names: seq<string>, u: Unstructured,
      namespace: Option<Name>)
    requires ArbitraryAttributes(additional, entityTypes, maxDepth, names, u).Ok?
    ensures forall a <- ArbitraryAttributes(additional, entityTypes, maxDepth, names, u).value.0 ::
              Plain(a.ty, namespace)
    decreases maxDepth, 2, |names|
  {
    if names != [] {
      var (ty, u1) := ArbitrarySchemaType(additional, entityTypes, maxDepth, u).value;
      var (required, u2) := ReadFlip(u1).value;
      var (notes, u3) := ReadNotes(u2).value;
      var later := ArbitraryAttributes(additional, entityTypes, maxDepth, names[1..], u3).value.0;
      GeneratedTypePlain(additional, entityTypes, maxDepth, u, namespace);
      GeneratedAttributesPlain(additional, entityTypes, maxDepth, names[1..], u3, namespace);
      PutFirstMembers(Attribute(names[0], ty, required, notes), later);
    }
  }

  lemma GeneratedAttrspecPlain(
      additional: bool, entityTypes: seq<Name>, maxDepth: nat, u: Unstructured, namespace: Option<Name>)
    requires ArbitraryAttrspec(additional, entityTypes, maxDepth, u).Ok?
    ensures var ty := ArbitraryAttrspec(additional, entityTypes, maxDepth, u).value.0;
            ty.Record? && Plain(ty, namespace)
  {
    var (names, u1) := ReadList([], u).value;
    GeneratedAttributesPlain(additional, entityTypes, maxDepth, names, u1, namespace);
    AttributesResolve(ArbitraryAttributes(additional, entityTypes, maxDepth, names, u1).value.0, namespace);
  }

  lemma {:induction false} GeneratedDeclPlain(
      additional: bool, entityTypes: seq<Name>, maxDepth: nat, parents: seq<Name>, u: Unstructured,
      namespace: Option<Name>)
    requires ArbitraryDecl(additional, entityTypes, maxDepth, parents, u).Ok?
    ensures forall ty <- DeclPositions(ArbitraryDecl(additional, entityTypes, maxDepth, parents, u).value.0) ::
              Plain(ty, namespace)
  {
    var (x, u1) := ReadIndex(u, 5).value;
    if x != 0 {
      GeneratedAttrspecPlain(additional, entityTypes, maxDepth, u1, namespace);
      var u2 := ArbitraryAttrspec(additional, entityTypes, maxDepth, u1).value.1;
      var (y, u3) := ReadIndex(u2, 2).value;
      if y != 0 { GeneratedTypePlain(additional, entityTypes, maxDepth, u3, namespace); }
    }
  }

  lemma {:induction false} GeneratedDeclsPlain(
      additional: bool, entityTypes: seq<Name>, maxDepth: nat, entities: seq<(string, seq<Name>)>, u: Unstructured,
      namespace: Option<Name>)
    requires ArbitraryDecls(additional, entityTypes, maxDepth, entities, u).Ok?
    ensures forall ty <- EntityPositions(ArbitraryDecls(additional, entityTypes, maxDepth, entities, u).value.0) ::
              Plain(ty, namespace)
    decreases entities
  {
    if entities != [] {
      GeneratedDeclPlain(additional, entityTypes, maxDepth, entities[0].1, u, namespace);
      var (e, u1) := ArbitraryDecl(additional, entityTypes, maxDepth, entities[0].1, u).value;
      GeneratedDeclsPlain(additional, entityTypes, maxDepth, entities[1..], u1, namespace);
      var rest := ArbitraryDecls(additional, entityTypes, maxDepth, entities[1..], u1).value.0;
      assert ([(entities[0].0, e)] + rest)[1..] == rest;
    }
  }

  lemma {:induction false} GeneratedActionsPlain(
      additional: bool, entityTypes: seq<Name>, maxDepth: nat,
      actions: seq<(string, Option<seq<Name>>, seq<Name>, seq<Name>)>, u: Unstructured, namespace: Option<Name>)
    requires ArbitraryActions(additional, entityTypes, maxDepth, actions, u).Ok?
    ensures forall ty <- ActionPositions(ArbitraryActions(additional, entityTypes, maxDepth, actions, u).value.0) ::
              Plain(ty, namespace)
    decreases actions
  {
    if actions != [] {
      GeneratedAttrspecPlain(additional, entityTypes, maxDepth, u, namespace);
      var u2 := ReadNotes(ArbitraryAttrspec(additional, entityTypes, maxDepth, u).value.1).value.1;
      GeneratedActionsPlain(additional, entityTypes, maxDepth, actions[1..], u2, namespace);
      var rest := ArbitraryActions(additional, entityTypes, maxDepth, actions[1..], u2).value.0;
      var all := ArbitraryActions(additional, entityTypes, maxDepth, actions, u).value.0;
      assert all[1..] == rest;
    }
  }

  /** Every schema of the generator */
  lemma GeneratedSchemaPlain(
      additional: bool, maxDepth: nat, outline: Outline, u: Unstructured, namespace: Option<Name>)
    requires ArbitrarySchema(additional, maxDepth, outline, u).Ok?
    ensures var schema := ArbitrarySchema(additional, maxDepth, outline, u).value.0;
            schema.commonTypes == map[] && forall ty <- Positions(schema) :: Plain(ty, namespace)
  {
    GeneratedDeclsPlain(additional, outline.entityTypes, maxDepth, outline.entities, u, namespace);
    var u1 := ArbitraryDecls(additional, outline.entityTypes, maxDepth, outline.entities, u).value.1;
    GeneratedActionsPlain(additional, outline.entityTypes, maxDepth, outline.actions, u1, namespace);
  }

  lemma ShapeWithin(shape: SchemaType, either: set<string>)
    requires Within(shape, either)
    ensures TypesWithin(AttributeTypes(shape), either)
  {
  }

  lemma {:induction false} EntityAttributesWithin(es: seq<(string, EntityDecl)>, either: set<string>)
    requires TypesWithin(EntityPositions(es), either)
    ensures TypesWithin(EntityAttributes(es), either)
  {
    if es != [] {
      assert forall ty <- DeclPositions(es[0].1) :: ty in EntityPositions(es);
      assert forall ty <- EntityPositions(es[1..]) :: ty in EntityPositions(es);
      EntityAttributesWithin(es[1..], either);
      if es[0].1.Standard? {
        assert DeclPositions(es[0].1)[0] == es[0].1.shape;
        ShapeWithin(es[0].1.shape, either);
      }
    }
  }

  lemma {:induction false} ActionAttributesWithin(acts: seq<(string, ActionDecl)>, either: set<string>)
    requires TypesWithin(ActionPositions(acts), either)
    ensures TypesWithin(ActionAttributes(acts), either)
  {
    if acts != [] {
      assert forall ty <- ContextPositions(acts[0].1) :: ty in ActionPositions(acts);
      assert forall ty <- ActionPositions(acts[1..]) :: ty in ActionPositions(acts);
      ActionAttributesWithin(acts[1..], either);
      if acts[0].1.appliesTo.Some? {
        assert ContextPositions(acts[0].1)[0] == acts[0].1.appliesTo.value.context;
        ShapeWithin(acts[0].1.appliesTo.value.context, either);
      }
    }
  }

  lemma CollectedWithin(schema: Namespace, either: set<string>)
    requires SchemaWithin(schema, either)
    ensures TypesWithin(CollectAttributes(schema), either)
  {
    assert forall ty <- EntityPositions(schema.entityTypes) :: ty in Positions(schema);
    assert forall ty <- ActionPositions(schema.actions) :: ty in Positions(schema);
    EntityAttributesWithin(schema.entityTypes, either);
    ActionAttributesWithin(schema.actions, either);
  }
}

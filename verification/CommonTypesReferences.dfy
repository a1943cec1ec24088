/** Common-type introduction and common-type references: where there is one, some run panics and none
    succeeds; where there is none, no run panics and some succeeds. */
module CommonTypesReferences {
  import opened Wrappers
  import opened Choices
  import opened SchemaTypes
  import opened CommonTypes
  import opened CommonTypesProofs
  import opened CommonTypesTheorems
  import opened CommonTypesRuns

  predicate NoReference(ty: SchemaType) {
    match ty
    case CommonTypeRef(_) => false
    case Set(element) => NoReference(element)
    case Record(attributes, _) => forall a <- attributes :: NoReference(a.ty)
    case _ => true
  }

  ghost predicate ReferenceFree(attributes: seq<SchemaType>, schema: Namespace) {
    && (forall ty <- attributes :: NoReference(ty))
    && (forall ty <- Positions(schema) :: NoReference(ty))
  }

  // ----- the names of reference-free types are finitely many -----

  function Bases(ty: SchemaType): set<string>
    decreases ty
  {
    match ty
    case Set(element) => Bases(element)
    case Record(attributes, _) => AttributeBases(attributes)
    case EntityOrCommon(name) => {name.base}
    case _ => {}
  }

  function AttributeBases(attributes: seq<Attribute>): set<string>
    decreases attributes
  {
    if attributes == [] then {} else Bases(attributes[0].ty) + AttributeBases(attributes[1..])
  }

  function AllBases(tys: seq<SchemaType>): set<string> {
    if tys == [] then {} else Bases(tys[0]) + AllBases(tys[1..])
  }

  lemma {:induction false} BasesSuffice(ty: SchemaType, either: set<string>)
    requires NoReference(ty) && Bases(ty) <= either
    ensures Within(ty, either)
    decreases ty
  {
    match ty
    case Set(element) => BasesSuffice(element, either);
    case Record(attributes, _) => AttributeBasesSuffice(attributes, either);
    case _ =>
  }

  lemma {:induction false} AttributeBasesSuffice(attributes: seq<Attribute>, either: set<string>)
    requires (forall a <- attributes :: NoReference(a.ty)) && AttributeBases(attributes) <= either
    ensures forall a <- attributes :: Within(a.ty, either)
    decreases attributes
  {
    if attributes != [] {
      assert attributes[0] in attributes;
      BasesSuffice(attributes[0].ty, either);
      AttributeBasesSuffice(attributes[1..], either);
    }
  }

  lemma {:induction false} AllBasesSuffice(tys: seq<SchemaType>, either: set<string>)
    requires (forall ty <- tys :: NoReference(ty)) && AllBases(tys) <= either
    ensures TypesWithin(tys, either)
  {
    if tys != [] {
      assert tys[0] in tys;
      BasesSuffice(tys[0], either);
      AllBasesSuffice(tys[1..], either);
    }
  }

  /** The base names of all entity-or-common names in sight */
  function EitherNames(attributes: seq<SchemaType>, schema: Namespace): set<string> {
    AllBases(attributes) + AllBases(Positions(schema))
  }

  lemma NamesSuffice(attributes: seq<SchemaType>, schema: Namespace)
    requires ReferenceFree(attributes, schema)
    ensures TypesWithin(attributes, EitherNames(attributes, schema))
    ensures SchemaWithin(schema, EitherNames(attributes, schema))
  {
    AllBasesSuffice(attributes, EitherNames(attributes, schema));
    AllBasesSuffice(Positions(schema), EitherNames(attributes, schema));
  }

  lemma {:induction false} WithinIsFree(ty: SchemaType, either: set<string>)
    requires Within(ty, either)
    ensures NoReference(ty)
  {
    match ty
    case Set(element) => WithinIsFree(element, either);
    case Record(attributes, _) =>
      forall a | a in attributes
        ensures NoReference(a.ty)
      {
        WithinIsFree(a.ty, either);
      }
    case _ =>
  }

  // ----- with a reference, no run succeeds -----

  ghost predicate BoundFree(b: Binds) {
    forall t :: t in b.bindings ==> NoReference(t)
  }

  lemma {:induction false} BindFree(b: Binds, ty: SchemaType, u: Unstructured)
    requires BindType(b, ty, u).Ok?
    ensures NoReference(ty) && (BoundFree(b) ==> BoundFree(BindType(b, ty, u).value.0))
    decreases ty
  {
    var (heads, u1) := ReadFlip(u).value;
    var (b2, u2) := (if heads then AddArbitrary(b, ty, u1) else Ok((b, u1))).value;
    match ty
    case Set(element) => BindFree(b2, element, u2);
    case Record(attributes, _) => BindAttributesFree(b2, attributes, u2);
    case _ =>
  }

  lemma {:induction false} BindAttributesFree(b: Binds, attributes: seq<Attribute>, u: Unstructured)
    requires BindAttributes(b, attributes, u).Ok?
    ensures forall a <- attributes :: NoReference(a.ty)
    ensures BoundFree(b) ==> BoundFree(BindAttributes(b, attributes, u).value.0)
    decreases attributes
  {
    if attributes != [] {
      BindFree(b, attributes[0].ty, u);
      var (b1, u1) := BindType(b, attributes[0].ty, u).value;
      BindAttributesFree(b1, attributes[1..], u1);
    }
  }

  lemma {:induction false} BindAllFree(b: Binds, tys: seq<SchemaType>, u: Unstructured)
    requires BindAll(b, tys, u).Ok? && BoundFree(b)
    ensures (forall ty <- tys :: NoReference(ty)) && BoundFree(BindAll(b, tys, u).value.0)
    decreases tys
  {
    if tys != [] {
      BindFree(b, tys[0], u);
      var (b1, u1) := BindType(b, tys[0], u).value;
      BindAllFree(b1, tys[1..], u1);
    }
  }

  lemma {:induction false} RewriteFree(b: Binds, ty: SchemaType, u: Unstructured)
    requires BoundFree(b) && RewriteType(b, ty, u).Ok?
    ensures NoReference(ty)
    decreases ty
  {
    if ty !in b.bindings {
      match ty
      case Set(element) => RewriteFree(b, element, u);
      case Record(attributes, _) => RewriteAttributesFree(b, attributes, u);
      case _ =>
    }
  }

  lemma {:induction false} RewriteAttributesFree(b: Binds, attributes: seq<Attribute>, u: Unstructured)
    requires BoundFree(b) && RewriteAttributes(b, attributes, u).Ok?
    ensures forall a <- attributes :: NoReference(a.ty)
    decreases attributes
  {
    if attributes != [] {
      RewriteFree(b, attributes[0].ty, u);
      RewriteAttributesFree(b, attributes[1..], RewriteType(b, attributes[0].ty, u).value.1);
    }
  }

  lemma {:induction false} RewriteEntitiesFree(b: Binds, es: seq<(string, EntityDecl)>, u: Unstructured)
    requires BoundFree(b) && RewriteEntities(b, es, u).Ok?
    ensures forall ty <- EntityPositions(es) :: NoReference(ty)
  {
    if es != [] {
      var e := es[0].1;
      if e.Standard? {
        RewriteFree(b, e.shape, u);
        if e.tags.Some? { RewriteFree(b, e.tags.value, RewriteType(b, e.shape, u).value.1); }
      }
      RewriteEntitiesFree(b, es[1..], RewriteEntity(b, e, u).value.1);
    }
  }

  lemma {:induction false} RewriteActionsFree(b: Binds, acts: seq<(string, ActionDecl)>, u: Unstructured)
    requires BoundFree(b) && RewriteActions(b, acts, u).Ok?
    ensures forall ty <- ActionPositions(acts) :: NoReference(ty)
  {
    if acts != [] {
      var a := acts[0].1;
      if a.appliesTo.Some? { RewriteFree(b, a.appliesTo.value.context, u); }
      RewriteActionsFree(b, acts[1..], RewriteAction(b, a, u).value.1);
    }
  }

  lemma SuccessIsFree(attributes: seq<SchemaType>, schema: Namespace, order: KeyOrder, u: Unstructured)
    requires IsOrder(order) && AddCommonTypes(attributes, schema, order, u).Ok?
    ensures ReferenceFree(attributes, schema)
  {
    var (b1, u1) := BindAll(NO_BINDS, attributes, u).value;
    var (b, u2) := BindSchema(attributes, schema, u).value;
    BindAllFree(NO_BINDS, attributes, u);
    BindAllFree(b1, TagTypes(schema.entityTypes), u1);
    var u3 := ToCommonTypes(b, order(b.bindings.Keys), map[], u2).value.1;
    RewriteEntitiesFree(b, schema.entityTypes, u3);
    RewriteActionsFree(b, schema.actions, RewriteEntities(b, schema.entityTypes, u3).value.1);
  }

  /** Some run succeeds if and only if the attributes and the schema have no common-type references. */
  lemma SucceedsIff(attributes: seq<SchemaType>, schema: Namespace, order: KeyOrder)
    requires IsOrder(order)
    ensures (exists u :: AddCommonTypes(attributes, schema, order, u).Ok?) <==> ReferenceFree(attributes, schema)
  {
    if u :| AddCommonTypes(attributes, schema, order, u).Ok? {
      SuccessIsFree(attributes, schema, order, u);
    }
    if ReferenceFree(attributes, schema) {
      NamesSuffice(attributes, schema);
      var either, tys := EitherNames(attributes, schema), Bindable(attributes, schema);
      var u, _ := PickedRun(attributes, schema, order, either, iset{""}, |tys|, "");
    }
  }

  // ----- without references no run panics -----

  lemma {:induction false} BindNeverPanics(b: Binds, ty: SchemaType, u: Unstructured)
    requires NoReference(ty)
    ensures BindType(b, ty, u) != Err(Panicked)
    decreases ty
  {
    if ReadFlip(u).Ok? && (ReadFlip(u).value.0 ==> AddArbitrary(b, ty, ReadFlip(u).value.1).Ok?) {
      var (heads, u1) := ReadFlip(u).value;
      var (b2, u2) := (if heads then AddArbitrary(b, ty, u1) else Ok((b, u1))).value;
      match ty
      case Set(element) => BindNeverPanics(b2, element, u2);
      case Record(attributes, _) => BindNoAttributePanics(b2, attributes, u2);
      case _ =>
    }
  }

  lemma {:induction false} BindNoAttributePanics(b: Binds, attributes: seq<Attribute>, u: Unstructured)
    requires forall a <- attributes :: NoReference(a.ty)
    ensures BindAttributes(b, attributes, u) != Err(Panicked)
    decreases attributes
  {
    if attributes != [] {
      assert attributes[0] in attributes;
      BindNeverPanics(b, attributes[0].ty, u);
      if BindType(b, attributes[0].ty, u).Ok? {
        var (b1, u1) := BindType(b, attributes[0].ty, u).value;
        BindNoAttributePanics(b1, attributes[1..], u1);
      }
    }
  }

  lemma {:induction false} BindAllNeverPanics(b: Binds, tys: seq<SchemaType>, u: Unstructured)
    requires forall ty <- tys :: NoReference(ty)
    ensures BindAll(b, tys, u) != Err(Panicked)
    decreases tys
  {
    if tys != [] {
      assert tys[0] in tys;
      BindNeverPanics(b, tys[0], u);
      if BindType(b, tys[0], u).Ok? {
        var (b1, u1) := BindType(b, tys[0], u).value;
        BindAllNeverPanics(b1, tys[1..], u1);
      }
    }
  }

  lemma {:induction false} RewriteNeverPanics(b: Binds, ty: SchemaType, u: Unstructured)
    requires NoReference(ty)
    ensures RewriteType(b, ty, u) != Err(Panicked) && RewriteSubterms(b, ty, u) != Err(Panicked)
    decreases ty
  {
    match ty
    case Set(element) => RewriteNeverPanics(b, element, u);
    case Record(attributes, _) => RewriteNoAttributePanics(b, attributes, u);
    case _ =>
  }

  lemma {:induction false} RewriteNoAttributePanics(b: Binds, attributes: seq<Attribute>, u: Unstructured)
    requires forall a <- attributes :: NoReference(a.ty)
    ensures RewriteAttributes(b, attributes, u) != Err(Panicked)
    decreases attributes
  {
    if attributes != [] {
      assert attributes[0] in attributes;
      RewriteNeverPanics(b, attributes[0].ty, u);
      if RewriteType(b, attributes[0].ty, u).Ok? {
        RewriteNoAttributePanics(b, attributes[1..], RewriteType(b, attributes[0].ty, u).value.1);
      }
    }
  }

  lemma {:induction false} DefineNeverPanics(b: Binds, keys: seq<SchemaType>, done: Definitions, u: Unstructured)
    requires BoundFree(b) && forall k <- keys :: k in b.bindings
    ensures ToCommonTypes(b, keys, done, u) != Err(Panicked)
    decreases keys
  {
    if keys != [] {
      assert keys[0] in keys;
      RewriteNeverPanics(b, keys[0], u);
      if b.bindings[keys[0]] == [] {
        DefineNeverPanics(b, keys[1..], done, u);
      } else if RewriteSubterms(b, keys[0], u).Ok? {
        var (body, u1) := RewriteSubterms(b, keys[0], u).value;
        DefineNeverPanics(b, keys[1..], Chain(done, b.bindings[keys[0]], body), u1);
      }
    }
  }

  lemma {:induction false} EntitiesNeverPanic(b: Binds, es: seq<(string, EntityDecl)>, u: Unstructured)
    requires forall ty <- EntityPositions(es) :: NoReference(ty)
    ensures RewriteEntities(b, es, u) != Err(Panicked)
  {
    if es != [] {
      var e := es[0].1;
      assert forall ty <- DeclPositions(e) :: ty in EntityPositions(es);
      assert forall ty <- EntityPositions(es[1..]) :: ty in EntityPositions(es);
      EntityNeverPanics(b, e, u);
      if RewriteEntity(b, e, u).Ok? { EntitiesNeverPanic(b, es[1..], RewriteEntity(b, e, u).value.1); }
    }
  }

  lemma {:induction false} EntityNeverPanics(b: Binds, e: EntityDecl, u: Unstructured)
    requires forall ty <- DeclPositions(e) :: NoReference(ty)
    ensures RewriteEntity(b, e, u) != Err(Panicked)
  {
    if e.Standard? {
      assert DeclPositions(e)[0] == e.shape;
      RewriteNeverPanics(b, e.shape, u);
      if e.tags.Some? && RewriteType(b, e.shape, u).Ok? {
        assert DeclPositions(e)[1] == e.tags.value;
        RewriteNeverPanics(b, e.tags.value, RewriteType(b, e.shape, u).value.1);
      }
    }
  }

  lemma {:induction false} ActionsNeverPanic(b: Binds, acts: seq<(string, ActionDecl)>, u: Unstructured)
    requires forall ty <- ActionPositions(acts) :: NoReference(ty)
    ensures RewriteActions(b, acts, u) != Err(Panicked)
  {
    if acts != [] {
      var a := acts[0].1;
      assert forall ty <- ContextPositions(a) :: ty in ActionPositions(acts);
      assert forall ty <- ActionPositions(acts[1..]) :: ty in ActionPositions(acts);
      if a.appliesTo.Some? {
        assert ContextPositions(a)[0] == a.appliesTo.value.context;
        RewriteNeverPanics(b, a.appliesTo.value.context, u);
      }
      if RewriteAction(b, a, u).Ok? { ActionsNeverPanic(b, acts[1..], RewriteAction(b, a, u).value.1); }
    }
  }

  lemma {:induction false} SkipNeverPanics(n: nat, u: Unstructured)
    ensures SkipNotes(n, u) != Err(Panicked)
  {
    if n > 0 && ReadNotes(u).Ok? { SkipNeverPanics(n - 1, ReadNotes(u).value.1); }
  }

  lemma BindSchemaNeverPanics(attributes: seq<SchemaType>, schema: Namespace, u: Unstructured)
    requires ReferenceFree(attributes, schema)
    ensures BindSchema(attributes, schema, u) != Err(Panicked)
    ensures BindSchema(attributes, schema, u).Ok? ==> BoundFree(BindSchema(attributes, schema, u).value.0)
  {
    var es := schema.entityTypes;
    TagsArePositions(es);
    assert forall ty <- EntityPositions(es) :: ty in Positions(schema);
    BindAllNeverPanics(NO_BINDS, attributes, u);
    if BindAll(NO_BINDS, attributes, u).Ok? {
      var (b1, u1) := BindAll(NO_BINDS, attributes, u).value;
      BindAllFree(NO_BINDS, attributes, u);
      BindAllNeverPanics(b1, TagTypes(es), u1);
      if BindAll(b1, TagTypes(es), u1).Ok? { BindAllFree(b1, TagTypes(es), u1); }
    }
  }

  lemma FreeNeverPanics(attributes: seq<SchemaType>, schema: Namespace, order: KeyOrder, u: Unstructured)
    requires IsOrder(order) && ReferenceFree(attributes, schema)
    ensures AddCommonTypes(attributes, schema, order, u) != Err(Panicked)
  {
    BindSchemaNeverPanics(attributes, schema, u);
    if BindSchema(attributes, schema, u).Ok? {
      var (b, u1) := BindSchema(attributes, schema, u).value;
      DefineNeverPanics(b, order(b.bindings.Keys), map[], u1);
      if ToCommonTypes(b, order(b.bindings.Keys), map[], u1).Ok? {
        var (defs, u2) := ToCommonTypes(b, order(b.bindings.Keys), map[], u1).value;
        RewritesNeverPanic(b, schema, |defs|, u2);
      }
    }
  }

  lemma RewritesNeverPanic(b: Binds, schema: Namespace, n: nat, u: Unstructured)
    requires forall ty <- Positions(schema) :: NoReference(ty)
    ensures RewriteEntities(b, schema.entityTypes, u) != Err(Panicked)
    ensures RewriteEntities(b, schema.entityTypes, u).Ok? ==>
              var u1 := RewriteEntities(b, schema.entityTypes, u).value.1;
              && RewriteActions(b, schema.actions, u1) != Err(Panicked)
              && (RewriteActions(b, schema.actions, u1).Ok? ==>
                    SkipNotes(n, RewriteActions(b, schema.actions, u1).value.1) != Err(Panicked))
  {
    assert forall ty <- EntityPositions(schema.entityTypes) :: ty in Positions(schema);
    assert forall ty <- ActionPositions(schema.actions) :: ty in Positions(schema);
    EntitiesNeverPanic(b, schema.entityTypes, u);
    if RewriteEntities(b, schema.entityTypes, u).Ok? {
      var u1 := RewriteEntities(b, schema.entityTypes, u).value.1;
      ActionsNeverPanic(b, schema.actions, u1);
      if RewriteActions(b, schema.actions, u1).Ok? {
        SkipNeverPanics(n, RewriteActions(b, schema.actions, u1).value.1);
      }
    }
  }

  // ----- with a reference, some run panics: the one that binds nothing -----

  lemma {:induction false} BindPanics(b: Binds, ty: SchemaType) returns (u: Unstructured)
    requires !NoReference(ty)
    ensures BindType(b, ty, u) == Err(Panicked) && TextsIn(u, iset{})
    decreases ty
  {
    var u1 := [];
    match ty {
      case Set(element) => u1 := BindPanics(b, element);
      case Record(attributes, _) => u1 := BindSomeAttributePanics(b, attributes);
      case _ =>
    }
    u := [Flip(false)] + u1;
    assert u[1..] == u1;
  }

  lemma {:induction false} BindSomeAttributePanics(b: Binds, attributes: seq<Attribute>) returns (u: Unstructured)
    requires exists a <- attributes :: !NoReference(a.ty)
    ensures BindAttributes(b, attributes, u) == Err(Panicked) && TextsIn(u, iset{})
    decreases attributes
  {
    var ty := attributes[0].ty;
    if !NoReference(ty) {
      u := BindPanics(b, ty);
    } else {
      var u1 := BindSomeAttributePanics(b, attributes[1..]);
      BasesSuffice(ty, Bases(ty));
      u := BindNone(b, ty, u1, Bases(ty), iset{});
    }
  }

  lemma {:induction false} BindAllPanics(b: Binds, tys: seq<SchemaType>) returns (u: Unstructured)
    requires exists ty <- tys :: !NoReference(ty)
    ensures BindAll(b, tys, u) == Err(Panicked) && TextsIn(u, iset{})
    decreases tys
  {
    if !NoReference(tys[0]) {
      u := BindPanics(b, tys[0]);
    } else {
      var u1 := BindAllPanics(b, tys[1..]);
      BasesSuffice(tys[0], Bases(tys[0]));
      u := BindNone(b, tys[0], u1, Bases(tys[0]), iset{});
    }
  }

  lemma {:induction false} RewritePanics(ty: SchemaType, u: Unstructured)
    requires !NoReference(ty)
    ensures RewriteType(NO_BINDS, ty, u) == Err(Panicked)
    decreases ty
  {
    match ty
    case Set(element) => RewritePanics(element, u);
    case Record(attributes, _) => RewriteSomeAttributePanics(attributes, u);
    case _ =>
  }

  lemma {:induction false} RewriteSomeAttributePanics(attributes: seq<Attribute>, u: Unstructured)
    requires exists a <- attributes :: !NoReference(a.ty)
    ensures RewriteAttributes(NO_BINDS, attributes, u) == Err(Panicked)
    decreases attributes
  {
    var ty := attributes[0].ty;
    if !NoReference(ty) {
      RewritePanics(ty, u);
    } else {
      BasesSuffice(ty, Bases(ty));
      RewriteNothing(ty, u, Bases(ty));
      RewriteSomeAttributePanics(attributes[1..], u);
    }
  }

  /** Without references, rewriting with no bindings draws nothing. */
  lemma {:induction false} EntitiesDrawNothing(es: seq<(string, EntityDecl)>, u: Unstructured)
    ensures if forall ty <- EntityPositions(es) :: NoReference(ty)
            then RewriteEntities(NO_BINDS, es, u).Ok? && RewriteEntities(NO_BINDS, es, u).value.1 == u
            else RewriteEntities(NO_BINDS, es, u) == Err(Panicked)
  {
    if es != [] {
      EntityDrawsNothing(es[0].1, u);
      EntitiesDrawNothing(es[1..], u);
    }
  }

  lemma TypeDrawsNothing(ty: SchemaType, u: Unstructured)
    ensures RewriteType(NO_BINDS, ty, u) == if NoReference(ty) then Ok((ty, u)) else Err(Panicked)
  {
    if NoReference(ty) {
      BasesSuffice(ty, Bases(ty));
      RewriteNothing(ty, u, Bases(ty));
    } else {
      RewritePanics(ty, u);
    }
  }

  lemma EntityDrawsNothing(e: EntityDecl, u: Unstructured)
    ensures if forall ty <- DeclPositions(e) :: NoReference(ty)
            then RewriteEntity(NO_BINDS, e, u).Ok? && RewriteEntity(NO_BINDS, e, u).value.1 == u
            else RewriteEntity(NO_BINDS, e, u) == Err(Panicked)
  {
    if e.Standard? {
      assert DeclPositions(e)[0] == e.shape;
      TypeDrawsNothing(e.shape, u);
      if e.tags.Some? {
        assert DeclPositions(e)[1] == e.tags.value;
        TypeDrawsNothing(e.tags.value, u);
      }
    }
  }

  lemma {:induction false} ActionsPanic(acts: seq<(string, ActionDecl)>, u: Unstructured)
    requires exists ty <- ActionPositions(acts) :: !NoReference(ty)
    ensures RewriteActions(NO_BINDS, acts, u) == Err(Panicked)
  {
    var a := acts[0].1;
    if a.appliesTo.Some? {
      TypeDrawsNothing(a.appliesTo.value.context, u);
      if NoReference(a.appliesTo.value.context) { ActionsPanic(acts[1..], u); }
    } else {
      ActionsPanic(acts[1..], u);
    }
  }

  lemma PanickingRun(attributes: seq<SchemaType>, schema: Namespace, order: KeyOrder) returns (u: Unstructured)
    requires IsOrder(order) && !ReferenceFree(attributes, schema)
    ensures AddCommonTypes(attributes, schema, order, u) == Err(Panicked)
  {
    var tags := TagTypes(schema.entityTypes);
    if exists ty <- attributes :: !NoReference(ty) {
      u := BindAllPanics(NO_BINDS, attributes);
    } else {
      var u1;
      AllBasesSuffice(attributes, AllBases(attributes));
      if exists ty <- tags :: !NoReference(ty) {
        u1 := BindAllPanics(NO_BINDS, tags);
        u := BindNoneOf(NO_BINDS, attributes, u1, AllBases(attributes), iset{});
      } else {
        AllBasesSuffice(tags, AllBases(tags));
        u1 := BindNoneOf(NO_BINDS, tags, [], AllBases(tags), iset{});
        u := BindNoneOf(NO_BINDS, attributes, u1, AllBases(attributes), iset{});
        UnboundPanics(schema, order);
      }
    }
  }

  lemma UnboundPanics(schema: Namespace, order: KeyOrder)
    requires IsOrder(order) && exists ty <- Positions(schema) :: !NoReference(ty)
    ensures order(NO_BINDS.bindings.Keys) == []
    ensures RewriteEntities(NO_BINDS, schema.entityTypes, []) == Err(Panicked)
         || (&& RewriteEntities(NO_BINDS, schema.entityTypes, []).Ok?
             && var u := RewriteEntities(NO_BINDS, schema.entityTypes, []).value.1;
                RewriteActions(NO_BINDS, schema.actions, u) == Err(Panicked))
  {
    NoKeys(order(NO_BINDS.bindings.Keys), NO_BINDS.bindings.Keys);
    EntitiesDrawNothing(schema.entityTypes, []);
    if forall ty <- EntityPositions(schema.entityTypes) :: NoReference(ty) { ActionsPanic(schema.actions, []); }
  }

  /** No run panics if and only if the attributes and the schema have no common-type references. */
  lemma NeverPanicsIff(attributes: seq<SchemaType>, schema: Namespace, order: KeyOrder)
    requires IsOrder(order)
    ensures (forall u :: AddCommonTypes(attributes, schema, order, u) != Err(Panicked))
       <==> ReferenceFree(attributes, schema)
  {
    if ReferenceFree(attributes, schema) {
      forall u
        ensures AddCommonTypes(attributes, schema, order, u) != Err(Panicked)
      {
        FreeNeverPanics(attributes, schema, order, u);
      }
    } else {
      var u := PanickingRun(attributes, schema, order);
    }
  }
}

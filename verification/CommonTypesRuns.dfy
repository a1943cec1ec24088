/** Runs of common-type introduction, chosen: those that bind nothing, or one type to one id. */
module CommonTypesRuns {
  import opened Wrappers
  import opened Choices
  import opened SchemaTypes
  import opened CommonTypes
  import opened CommonTypesProofs
  import opened CommonTypesTheorems

  /** The types at which binding starts */
  function Bindable(attributes: seq<SchemaType>, schema: Namespace): seq<SchemaType> {
    attributes + TagTypes(schema.entityTypes)
  }

  /** The texts that a run draws are possible ids. */
  ghost predicate TextsIn(u: Unstructured, ids: iset<string>) {
    forall c <- u :: c.Text? ==> c.text in ids
  }

  // ----- runs that bind nothing, or one chosen type to one chosen id -----

  lemma {:induction false} BindNone(
      b: Binds, ty: SchemaType, rest: Unstructured, either: set<string>, ids: iset<string>)
    returns (u: Unstructured)
    requires Within(ty, either) && TextsIn(rest, ids)
    ensures BindType(b, ty, u) == Ok((b, rest)) && u != [] && u[0] == Flip(false) && TextsIn(u, ids)
    decreases ty
  {
    var u1 := rest;
    match ty {
      case Set(element) => u1 := BindNone(b, element, rest, either, ids);
      case Record(attributes, _) => u1 := BindNoAttribute(b, attributes, rest, either, ids);
      case _ =>
    }
    u := [Flip(false)] + u1;
  }

  lemma {:induction false} BindNoAttribute(
      b: Binds, attributes: seq<Attribute>, rest: Unstructured, either: set<string>, ids: iset<string>)
    returns (u: Unstructured)
    requires (forall a <- attributes :: Within(a.ty, either)) && TextsIn(rest, ids)
    ensures BindAttributes(b, attributes, u) == Ok((b, rest)) && TextsIn(u, ids)
    decreases attributes
  {
    u := rest;
    if attributes != [] {
      var u1 := BindNoAttribute(b, attributes[1..], rest, either, ids);
      u := BindNone(b, attributes[0].ty, u1, either, ids);
    }
  }

  lemma {:induction false} BindNoneOf(
      b: Binds, tys: seq<SchemaType>, rest: Unstructured, either: set<string>, ids: iset<string>)
    returns (u: Unstructured)
    requires TypesWithin(tys, either) && TextsIn(rest, ids)
    ensures BindAll(b, tys, u) == Ok((b, rest)) && TextsIn(u, ids)
    decreases tys
  {
    u := rest;
    if tys != [] {
      var u1 := BindNoneOf(b, tys[1..], rest, either, ids);
      u := BindNone(b, tys[0], u1, either, ids);
    }
  }

  function Only(ty: SchemaType, id: string): Binds {
    Binds(map[ty := [id]], {id})
  }

  lemma BindTop(ty: SchemaType, id: string, rest: Unstructured, either: set<string>, ids: iset<string>)
    returns (u: Unstructured)
    requires Within(ty, either) && TextsIn(rest, ids) && id in ids
    ensures BindType(NO_BINDS, ty, u) == Ok((Only(ty, id), rest)) && TextsIn(u, ids)
  {
    var u0 := BindNone(Only(ty, id), ty, rest, either, ids);
    u := [Flip(true), Text(id)] + u0[1..];
    assert u[1..][1..] == u0[1..];
    assert [] + [id] == [id];
    assert Add(NO_BINDS, ty, id) == Only(ty, id);
  }

  lemma {:induction false} BindOnly(
      tys: seq<SchemaType>, p: nat, id: string, rest: Unstructured, either: set<string>, ids: iset<string>)
    returns (u: Unstructured)
    requires TypesWithin(tys, either) && TextsIn(rest, ids) && p < |tys| && id in ids
    ensures BindAll(NO_BINDS, tys, u) == Ok((Only(tys[p], id), rest)) && TextsIn(u, ids)
    decreases tys
  {
    if p == 0 {
      var u1 := BindNoneOf(Only(tys[0], id), tys[1..], rest, either, ids);
      u := BindTop(tys[0], id, u1, either, ids);
    } else {
      var u1 := BindOnly(tys[1..], p - 1, id, rest, either, ids);
      u := BindNone(NO_BINDS, tys[0], u1, either, ids);
    }
  }

  /** `p` is the place of a bindable type; past the end, nothing is bound. */
  function PickedBinds(tys: seq<SchemaType>, p: nat, id: string): Binds {
    if p < |tys| then Only(tys[p], id) else NO_BINDS
  }

  lemma BindPicked(
      attributes: seq<SchemaType>, schema: Namespace, p: nat, id: string, rest: Unstructured, either: set<string>,
      ids: iset<string>)
    returns (u: Unstructured)
    requires TypesWithin(attributes, either) && SchemaWithin(schema, either) && TextsIn(rest, ids) && id in ids
    ensures BindSchema(attributes, schema, u) == Ok((PickedBinds(Bindable(attributes, schema), p, id), rest))
    ensures TextsIn(u, ids)
  {
    var tags := TagTypes(schema.entityTypes);
    TagTypesWithin(schema, either);
    if p < |attributes| {
      var u1 := BindNoneOf(Only(attributes[p], id), tags, rest, either, ids);
      u := BindOnly(attributes, p, id, u1, either, ids);
    } else {
      var u1;
      if p < |attributes| + |tags| { u1 := BindOnly(tags, p - |attributes|, id, rest, either, ids); }
      else { u1 := BindNoneOf(NO_BINDS, tags, rest, either, ids); }
      u := BindNoneOf(NO_BINDS, attributes, u1, either, ids);
    }
  }

  // ----- every rewriting can be completed -----

  ghost predicate NoEmptyList(b: Binds) {
    forall t :: t in b.bindings ==> b.bindings[t] != []
  }

  lemma {:induction false} RewriteSome(
      b: Binds, ty: SchemaType, rest: Unstructured, either: set<string>, ids: iset<string>)
    returns (u: Unstructured)
    requires NoEmptyList(b) && Within(ty, either) && TextsIn(rest, ids)
    ensures RewriteType(b, ty, u).Ok? && RewriteType(b, ty, u).value.1 == rest && TextsIn(u, ids)
    decreases ty
  {
    if ty in b.bindings {
      u := [Pick(0)] + rest;
    } else {
      u := rest;
      match ty {
        case Set(element) => u := RewriteSome(b, element, rest, either, ids);
        case Record(attributes, _) => u := RewriteSomeAttributes(b, attributes, rest, either, ids);
        case _ =>
      }
    }
  }

  lemma {:induction false} RewriteSomeAttributes(
      b: Binds, attributes: seq<Attribute>, rest: Unstructured, either: set<string>, ids: iset<string>)
    returns (u: Unstructured)
    requires NoEmptyList(b) && (forall a <- attributes :: Within(a.ty, either)) && TextsIn(rest, ids)
    ensures RewriteAttributes(b, attributes, u).Ok? && RewriteAttributes(b, attributes, u).value.1 == rest
    ensures TextsIn(u, ids)
    decreases attributes
  {
    u := rest;
    if attributes != [] {
      var u1 := RewriteSomeAttributes(b, attributes[1..], rest, either, ids);
      u := RewriteSome(b, attributes[0].ty, u1, either, ids);
    }
  }

  lemma {:induction false} RewriteSomeEntities(
      b: Binds, es: seq<(string, EntityDecl)>, rest: Unstructured, either: set<string>, ids: iset<string>)
    returns (u: Unstructured)
    requires NoEmptyList(b) && TypesWithin(EntityPositions(es), either) && TextsIn(rest, ids)
    ensures RewriteEntities(b, es, u).Ok? && RewriteEntities(b, es, u).value.1 == rest && TextsIn(u, ids)
  {
    u := rest;
    if es != [] {
      assert forall ty <- EntityPositions(es[1..]) :: ty in EntityPositions(es);
      var u1 := RewriteSomeEntities(b, es[1..], rest, either, ids);
      assert forall ty <- DeclPositions(es[0].1) :: ty in EntityPositions(es);
      u := RewriteSomeEntity(b, es[0].1, u1, either, ids);
    }
  }

  lemma {:induction false} RewriteSomeEntity(
      b: Binds, e: EntityDecl, rest: Unstructured, either: set<string>, ids: iset<string>) returns (u: Unstructured)
    requires NoEmptyList(b) && TypesWithin(DeclPositions(e), either) && TextsIn(rest, ids)
    ensures RewriteEntity(b, e, u).Ok? && RewriteEntity(b, e, u).value.1 == rest && TextsIn(u, ids)
  {
    u := rest;
    if e.Standard? {
      if e.tags.Some? {
        assert DeclPositions(e)[1] == e.tags.value;
        u := RewriteSome(b, e.tags.value, u, either, ids);
      }
      assert DeclPositions(e)[0] == e.shape;
      u := RewriteSome(b, e.shape, u, either, ids);
    }
  }

  lemma {:induction false} RewriteSomeActions(
      b: Binds, acts: seq<(string, ActionDecl)>, rest: Unstructured, either: set<string>, ids: iset<string>)
    returns (u: Unstructured)
    requires NoEmptyList(b) && TypesWithin(ActionPositions(acts), either) && TextsIn(rest, ids)
    ensures RewriteActions(b, acts, u).Ok? && RewriteActions(b, acts, u).value.1 == rest && TextsIn(u, ids)
  {
    u := rest;
    if acts != [] {
      var a := acts[0].1;
      assert forall ty <- ActionPositions(acts[1..]) :: ty in ActionPositions(acts);
      var u1 := RewriteSomeActions(b, acts[1..], rest, either, ids);
      u := u1;
      if a.appliesTo.Some? {
        assert ContextPositions(a)[0] == a.appliesTo.value.context;
        assert a.appliesTo.value.context in ActionPositions(acts);
        u := RewriteSome(b, a.appliesTo.value.context, u1, either, ids);
      }
      assert RewriteAction(b, a, u).Ok? && RewriteAction(b, a, u).value.1 == u1;
    }
  }

  // ----- with nothing bound, nothing is rewritten -----

  lemma {:induction false} RewriteNothing(ty: SchemaType, u: Unstructured, either: set<string>)
    requires Within(ty, either)
    ensures RewriteType(NO_BINDS, ty, u) == Ok((ty, u))
    decreases ty
  {
    match ty
    case Set(element) => RewriteNothing(element, u, either);
    case Record(attributes, _) => RewriteNoAttribute(attributes, u, either);
    case _ =>
  }

  lemma {:induction false} RewriteNoAttribute(attributes: seq<Attribute>, u: Unstructured, either: set<string>)
    requires forall a <- attributes :: Within(a.ty, either)
    ensures RewriteAttributes(NO_BINDS, attributes, u) == Ok((attributes, u))
    decreases attributes
  {
    if attributes != [] {
      RewriteNothing(attributes[0].ty, u, either);
      RewriteNoAttribute(attributes[1..], u, either);
      var a := attributes[0];
      assert a == a.(ty := a.ty) && attributes == [a] + attributes[1..];
    }
  }

  // ----- with one bound type, its definition is the type itself -----

  lemma {:induction false} SmallerIsUntouched(
      ty: SchemaType, bound: SchemaType, id: string, u: Unstructured, either: set<string>)
    requires Within(ty, either) && Cost(ty, 1) < Cost(bound, 1)
    ensures RewriteType(Only(bound, id), ty, u) == Ok((ty, u))
    decreases ty
  {
    SubtermsUntouched(ty, bound, id, u, either);
  }

  lemma {:induction false} SubtermsUntouched(
      ty: SchemaType, bound: SchemaType, id: string, u: Unstructured, either: set<string>)
    requires Within(ty, either) && Cost(ty, 1) <= Cost(bound, 1)
    ensures RewriteSubterms(Only(bound, id), ty, u) == Ok((ty, u))
    decreases ty, 0
  {
    match ty
    case Set(element) => SmallerIsUntouched(element, bound, id, u, either);
    case Record(attributes, _) => AttributesUntouched(attributes, bound, id, u, either);
    case _ =>
  }

  lemma {:induction false} AttributesUntouched(
      attributes: seq<Attribute>, bound: SchemaType, id: string, u: Unstructured, either: set<string>)
    requires (forall a <- attributes :: Within(a.ty, either)) && CostAttributes(attributes, 1) < Cost(bound, 1)
    ensures RewriteAttributes(Only(bound, id), attributes, u) == Ok((attributes, u))
    decreases attributes
  {
    if attributes != [] {
      SmallerIsUntouched(attributes[0].ty, bound, id, u, either);
      AttributesUntouched(attributes[1..], bound, id, u, either);
      var a := attributes[0];
      assert a == a.(ty := a.ty) && attributes == [a] + attributes[1..];
    }
  }

  lemma {:induction false} OnlyDefinition(
      keys: seq<SchemaType>, ty: SchemaType, id: string, done: Definitions, u: Unstructured, either: set<string>)
    requires Within(ty, either) && (forall k <- keys :: k == ty)
    requires done == map[] || done == map[id := ty]
    ensures ToCommonTypes(Only(ty, id), keys, done, u)
         == Ok((if keys == [] then done else map[id := ty], u))
    decreases keys
  {
    if keys != [] {
      SubtermsUntouched(ty, ty, id, u, either);
      assert keys[0] in keys;
      assert forall k <- keys[1..] :: k in keys;
      assert Chain(done, [id], ty) == map[id := ty];
      OnlyDefinition(keys[1..], ty, id, map[id := ty], u, either);
    }
  }

  function PickedDefinitions(tys: seq<SchemaType>, p: nat, id: string): Definitions {
    if p < |tys| then map[id := tys[p]] else map[]
  }

  lemma NoKeys(keys: seq<SchemaType>, s: set<SchemaType>)
    requires forall k :: k in keys ==> k in s
    ensures s != {} || keys == []
  {
    if keys != [] { assert keys[0] in s; }
  }

  lemma DefinePicked(
      tys: seq<SchemaType>, p: nat, id: string, order: KeyOrder, u: Unstructured, either: set<string>)
    requires TypesWithin(tys, either) && IsOrder(order)
    ensures var b := PickedBinds(tys, p, id);
            && (forall k <- order(b.bindings.Keys) :: k in b.bindings)
            && ToCommonTypes(b, order(b.bindings.Keys), map[], u) == Ok((PickedDefinitions(tys, p, id), u))
  {
    var b := PickedBinds(tys, p, id);
    var keys := order(b.bindings.Keys);
    assert forall k :: k in keys <==> k in b.bindings.Keys;
    if p < |tys| {
      assert tys[p] in keys && tys[p] in tys;
      OnlyDefinition(keys, tys[p], id, map[], u, either);
    } else {
      NoKeys(keys, b.bindings.Keys);
    }
  }

  lemma NotesFor(tys: seq<SchemaType>, p: nat, id: string) returns (u: Unstructured)
    ensures SkipNotes(|PickedDefinitions(tys, p, id)|, u) == Ok([])
    ensures forall c <- u :: !c.Text?
  {
    u := [];
    if p < |tys| {
      u := [Notes(map[])];
      assert |map[id := tys[p]]| == 1;
      assert u[1..] == [];
    }
  }

  /** A run that binds the picked type alone to the id, or nothing */
  lemma PickedRun(
      attributes: seq<SchemaType>, schema: Namespace, order: KeyOrder, either: set<string>, ids: iset<string>,
      p: nat, id: string)
    returns (u: Unstructured, u2: Unstructured)
    requires IsOrder(order) && TypesWithin(attributes, either) && SchemaWithin(schema, either) && id in ids
    ensures TextsIn(u, ids) && AddCommonTypes(attributes, schema, order, u).Ok?
    ensures var schema' := AddCommonTypes(attributes, schema, order, u).value.0;
            var tys := Bindable(attributes, schema);
            && schema'.commonTypes == PickedDefinitions(tys, p, id)
            && RewrittenFrom(PickedBinds(tys, p, id), schema, schema', u2)
            && BindSchema(attributes, schema, u).value.0 == PickedBinds(tys, p, id)
  {
    var tys := Bindable(attributes, schema);
    var b, defs := PickedBinds(tys, p, id), PickedDefinitions(tys, p, id);
    var u4 := NotesFor(tys, p, id);
    TagTypesWithin(schema, either);
    assert TypesWithin(EntityPositions(schema.entityTypes), either);
    assert TypesWithin(ActionPositions(schema.actions), either);
    var u3 := RewriteSomeActions(b, schema.actions, u4, either, ids);
    u2 := RewriteSomeEntities(b, schema.entityTypes, u3, either, ids);
    DefinePicked(tys, p, id, order, u2, either);
    u := BindPicked(attributes, schema, p, id, u2, either, ids);
  }
}

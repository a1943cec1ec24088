/** Exactly which schema types and schemas the generator produces, and which attributes are listed. */
module SchemaGeneratorOutcomes {
  import opened Wrappers
  import opened Choices
  import opened SchemaTypes
  import opened CommonTypes
  import opened SchemaGenerator
  import CommonTypesOutcomes

  // ----- the order of keys -----

  lemma {:induction false} BeforeTotal(a: string, b: string)
    ensures Before(a, b) || a == b || Before(b, a)
    decreases a
  {
    if a != [] && b != [] && a[0] == b[0] {
      BeforeTotal(a[1..], b[1..]);
      assert a == [a[0]] + a[1..] && b == [b[0]] + b[1..];
    }
  }

  lemma {:induction false} BeforeTransitive(a: string, b: string, c: string)
    requires Before(a, b) && Before(b, c)
    ensures Before(a, c)
    decreases a
  {
    if a != [] && a[0] == b[0] && b[0] == c[0] { BeforeTransitive(a[1..], b[1..], c[1..]); }
  }

  lemma {:induction false} NotBeforeItself(a: string)
    ensures !Before(a, a)
  {
    if a != [] { NotBeforeItself(a[1..]); }
  }

  /** Strictly in key order, so that no key occurs twice */
  ghost predicate InOrder(attributes: seq<Attribute>) {
    forall i, j | 0 <= i < j < |attributes| :: Before(attributes[i].key, attributes[j].key)
  }

  lemma {:induction false} PutFirstInOrder(a: Attribute, later: seq<Attribute>)
    requires InOrder(later)
    ensures InOrder(PutFirst(a, later))
    decreases later
  {
    if later != [] && !Before(a.key, later[0].key) && a.key != later[0].key {
      BeforeTotal(a.key, later[0].key);
      PutFirstInOrder(a, later[1..]);
      PutFirstMembers(a, later[1..]);
      var rest := PutFirst(a, later[1..]);
      forall j | 0 <= j < |rest|
        ensures Before(later[0].key, rest[j].key)
      {
        assert rest[j] in rest;
      }
    } else if later != [] && Before(a.key, later[0].key) {
      forall j | 0 <= j < |later|
        ensures Before(a.key, later[j].key)
      {
        if j > 0 { BeforeTransitive(a.key, later[0].key, later[j].key); }
      }
    }
  }

  // ----- schema types -----

  predicate IsExtensionName(name: string) {
    name == "ipaddr" || name == "decimal" || name == "datetime" || name == "duration"
  }

  /** The declared entity types, the extension types, sets and records, down to the depth: there a set is
      one of longs and a record has no attributes. */
  ghost predicate CanType(additional: bool, entityTypes: seq<Name>, depth: nat, ty: SchemaType)
    decreases ty
  {
    match ty
    case Boolean => true
    case Long => true
    case String => true
    case Set(element) =>
      if depth == 0 then element == Long else CanType(additional, entityTypes, depth - 1, element)
    case Record(attributes, extra) =>
      && (extra ==> additional)
      && if depth == 0 then attributes == [] else CanAttributes(additional, entityTypes, depth - 1, attributes)
    case Entity(name) => name in entityTypes
    case Extension(name) => IsExtensionName(name)
    case CommonTypeRef(_) => false
    case EntityOrCommon(_) => false
  }

  ghost predicate CanAttributes(additional: bool, entityTypes: seq<Name>, depth: nat, attributes: seq<Attribute>)
    decreases attributes
  {
    InOrder(attributes) && forall a <- attributes :: CanType(additional, entityTypes, depth, a.ty)
  }

  lemma {:induction false} TypeOutcome(additional: bool, entityTypes: seq<Name>, maxDepth: nat, u: Unstructured)
    requires ArbitrarySchemaType(additional, entityTypes, maxDepth, u).Ok?
    ensures CanType(additional, entityTypes, maxDepth,
                    ArbitrarySchemaType(additional, entityTypes, maxDepth, u).value.0)
    decreases maxDepth, 1, 0
  {
    var (x, u1) := ReadIndex(u, 10).value;
    if x == 3 && maxDepth > 0 {
      TypeOutcome(additional, entityTypes, maxDepth - 1, u1);
    } else if x == 4 && maxDepth > 0 {
      var (names, u2) := ReadNames([], u1).value;
      AttributesOutcome(additional, entityTypes, maxDepth - 1, names, u2);
    }
  }

  lemma {:induction false} AttributesOutcome(
      additional: bool, entityTypes: seq<Name>, maxDepth: nat, names: seq<string>, u: Unstructured)
    requires ArbitraryAttributes(additional, entityTypes, maxDepth, names, u).Ok?
    ensures CanAttributes(additional, entityTypes, maxDepth,
                          ArbitraryAttributes(additional, entityTypes, maxDepth, names, u).value.0)
    decreases maxDepth, 2, |names|
  {
    if names != [] {
      var (ty, u1) := ArbitrarySchemaType(additional, entityTypes, maxDepth, u).value;
      var (required, u2) := ReadFlip(u1).value;
      var (notes, u3) := ReadNotes(u2).value;
      var later := ArbitraryAttributes(additional, entityTypes, maxDepth, names[1..], u3).value.0;
      TypeOutcome(additional, entityTypes, maxDepth, u);
      AttributesOutcome(additional, entityTypes, maxDepth, names[1..], u3);
      PutFirstMembers(Attribute(names[0], ty, required, notes), later);
      PutFirstInOrder(Attribute(names[0], ty, required, notes), later);
    }
  }

  // ----- every such type is drawn -----

  function Keys(attributes: seq<Attribute>): seq<string> {
    seq(|attributes|, i requires 0 <= i < |attributes| => attributes[i].key)
  }

  lemma {:induction false} DrawNames(before: seq<string>, names: seq<string>, rest: Unstructured)
    returns (u: Unstructured)
    requires Distinct(before + names)
    ensures ReadNames(before, u) == Ok((before + names, rest))
    decreases names
  {
    if names == [] {
      u := [Flip(false)] + rest;
      assert u[1..] == rest && before + names == before;
    } else {
      var all := before + names;
      assert all[|before|] == names[0] && forall i | 0 <= i < |before| :: all[i] == before[i];
      assert before + [names[0]] + names[1..] == all;
      var u1 := DrawNames(before + [names[0]], names[1..], rest);
      u := [Flip(true), Text(names[0])] + u1;
      assert u[1..][1..] == u1;
    }
  }

  lemma {:induction false} DrawList(before: seq<string>, names: seq<string>, rest: Unstructured)
    returns (u: Unstructured)
    ensures ReadList(before, u) == Ok((before + names, rest))
    decreases names
  {
    if names == [] {
      u := [Flip(false)] + rest;
      assert u[1..] == rest && before + names == before;
    } else {
      assert before + [names[0]] + names[1..] == before + names;
      var u1 := DrawList(before + [names[0]], names[1..], rest);
      u := [Flip(true), Text(names[0])] + u1;
      assert u[1..][1..] == u1;
    }
  }

  lemma DrawAdditional(additional: bool, extra: bool, rest: Unstructured) returns (u: Unstructured)
    requires extra ==> additional
    ensures ReadAdditional(additional, u) == Ok((extra, rest))
  {
    u := if additional then [Flip(extra)] + rest else rest;
    assert ([Flip(extra)] + rest)[1..] == rest;
  }

  lemma ExtensionNumber(name: string) returns (x: nat)
    requires IsExtensionName(name)
    ensures 6 <= x < 10
    ensures name == if x == 6 then "ipaddr" else if x == 7 then "decimal" else if x == 8 then "datetime" else "duration"
  {
    x := if name == "ipaddr" then 6 else if name == "decimal" then 7 else if name == "datetime" then 8 else 9;
  }

  lemma {:induction false} DrawType(
      additional: bool, entityTypes: seq<Name>, depth: nat, ty: SchemaType, rest: Unstructured)
    returns (u: Unstructured)
    requires CanType(additional, entityTypes, depth, ty)
    ensures ArbitrarySchemaType(additional, entityTypes, depth, u) == Ok((ty, rest))
    decreases ty, 1
  {
    var x, u1 := 0, rest;
    match ty {
      case String =>
      case Long => x := 1;
      case Boolean => x := 2;
      case Set(element) =>
        x := 3;
        if depth > 0 { u1 := DrawType(additional, entityTypes, depth - 1, element, rest); }
      case Record(_, _) =>
        x := 4;
        u1 := DrawRecord(additional, entityTypes, depth, ty, rest);
      case Entity(name) =>
        x := 5;
        var i :| 0 <= i < |entityTypes| && entityTypes[i] == name;
        u1 := [Pick(i)] + rest;
        assert u1[1..] == rest;
      case Extension(name) => x := ExtensionNumber(name);
    }
    u := [Pick(x)] + u1;
    assert u[1..] == u1;
  }

  lemma {:induction false} DrawRecord(
      additional: bool, entityTypes: seq<Name>, depth: nat, ty: SchemaType, rest: Unstructured)
    returns (u: Unstructured)
    requires ty.Record? && CanType(additional, entityTypes, depth, ty)
    ensures ArbitrarySchemaType(additional, entityTypes, depth, [Pick(4)] + u) == Ok((ty, rest))
    decreases ty, 0
  {
    u := DrawAdditional(additional, ty.additional, rest);
    if depth > 0 {
      KeysDistinct(ty.attributes);
      u := DrawAttributes(additional, entityTypes, depth - 1, ty.attributes, u);
      u := DrawNames([], Keys(ty.attributes), u);
      assert [] + Keys(ty.attributes) == Keys(ty.attributes);
    }
    assert ([Pick(4)] + u)[1..] == u;
  }

  lemma KeysDistinct(attributes: seq<Attribute>)
    requires InOrder(attributes)
    ensures Distinct([] + Keys(attributes))
  {
    forall i, j | 0 <= i < j < |attributes|
      ensures attributes[i].key != attributes[j].key
    {
      NotBeforeItself(attributes[i].key);
    }
  }

  lemma {:induction false} DrawAttributes(
      additional: bool, entityTypes: seq<Name>, depth: nat, attributes: seq<Attribute>, rest: Unstructured)
    returns (u: Unstructured)
    requires CanAttributes(additional, entityTypes, depth, attributes)
    ensures ArbitraryAttributes(additional, entityTypes, depth, Keys(attributes), u) == Ok((attributes, rest))
    decreases attributes
  {
    u := rest;
    if attributes != [] {
      var a := attributes[0];
      assert a in attributes && InOrder(attributes[1..]);
      var u3 := DrawAttributes(additional, entityTypes, depth, attributes[1..], rest);
      var u1 := [Flip(a.required), Notes(a.notes)] + u3;
      assert u1[1..][1..] == u3;
      u := DrawType(additional, entityTypes, depth, a.ty, u1);
      assert Keys(attributes)[1..] == Keys(attributes[1..]);
      assert attributes[1..] != [] ==> Before(a.key, attributes[1..][0].key);
      assert [a] + attributes[1..] == attributes;
    }
  }

  /** Exactly which schema types a run produces */
  lemma TypeIff(additional: bool, entityTypes: seq<Name>, depth: nat, ty: SchemaType)
    ensures CanType(additional, entityTypes, depth, ty)
       <==> exists u :: && ArbitrarySchemaType(additional, entityTypes, depth, u).Ok?
                        && ArbitrarySchemaType(additional, entityTypes, depth, u).value.0 == ty
  {
    if CanType(additional, entityTypes, depth, ty) {
      var u := DrawType(additional, entityTypes, depth, ty, []);
      assert ArbitrarySchemaType(additional, entityTypes, depth, u).Ok?;
    }
    if u :| && ArbitrarySchemaType(additional, entityTypes, depth, u).Ok?
            && ArbitrarySchemaType(additional, entityTypes, depth, u).value.0 == ty
    {
      TypeOutcome(additional, entityTypes, depth, u);
    }
  }

  // ----- whole schemas -----

  /** A shape or context: a record whose attributes have types of the full depth */
  ghost predicate CanAttrspec(additional: bool, entityTypes: seq<Name>, depth: nat, ty: SchemaType) {
    ty.Record? && (ty.additional ==> additional) && CanAttributes(additional, entityTypes, depth, ty.attributes)
  }

  ghost predicate CanDecl(additional: bool, entityTypes: seq<Name>, depth: nat, parents: seq<Name>, e: EntityDecl) {
    match e
    case Enum(_) => true
    case Standard(memberOfTypes, shape, tags) =>
      && memberOfTypes == parents && CanAttrspec(additional, entityTypes, depth, shape)
      && (tags.Some? ==> CanType(additional, entityTypes, depth, tags.value))
  }

  ghost predicate CanDecls(
      additional: bool, entityTypes: seq<Name>, depth: nat, entities: seq<(string, seq<Name>)>,
      es: seq<(string, EntityDecl)>)
  {
    && |es| == |entities|
    && forall i | 0 <= i < |es| ::
         es[i].0 == entities[i].0 && CanDecl(additional, entityTypes, depth, entities[i].1, es[i].1)
  }

  type ActionOutline = (string, Option<seq<Name>>, seq<Name>, seq<Name>)

  ghost predicate CanAction(
      additional: bool, entityTypes: seq<Name>, depth: nat, outline: ActionOutline, a: (string, ActionDecl))
  {
    && a.0 == outline.0 && a.1.memberOf == outline.1 && a.1.appliesTo.Some?
    && var spec := a.1.appliesTo.value;
    && spec == ApplySpec(outline.2, outline.3, spec.context)
    && CanAttrspec(additional, entityTypes, depth, spec.context)
  }

  ghost predicate CanActions(
      additional: bool, entityTypes: seq<Name>, depth: nat, outlines: seq<ActionOutline>,
      acts: seq<(string, ActionDecl)>)
  {
    |acts| == |outlines|
    && forall i | 0 <= i < |acts| :: CanAction(additional, entityTypes, depth, outlines[i], acts[i])
  }

  ghost predicate CanSchema(additional: bool, depth: nat, outline: Outline, schema: Namespace) {
    && schema.commonTypes == map[]
    && CanDecls(additional, outline.entityTypes, depth, outline.entities, schema.entityTypes)
    && CanActions(additional, outline.entityTypes, depth, outline.actions, schema.actions)
  }

  lemma AttrspecOutcome(additional: bool, entityTypes: seq<Name>, depth: nat, u: Unstructured)
    requires ArbitraryAttrspec(additional, entityTypes, depth, u).Ok?
    ensures CanAttrspec(additional, entityTypes, depth, ArbitraryAttrspec(additional, entityTypes, depth, u).value.0)
  {
    var (names, u1) := ReadList([], u).value;
    AttributesOutcome(additional, entityTypes, depth, names, u1);
  }

  lemma DeclOutcome(additional: bool, entityTypes: seq<Name>, depth: nat, parents: seq<Name>, u: Unstructured)
    requires ArbitraryDecl(additional, entityTypes, depth, parents, u).Ok?
    ensures CanDecl(additional, entityTypes, depth, parents,
                    ArbitraryDecl(additional, entityTypes, depth, parents, u).value.0)
  {
    var (x, u1) := ReadIndex(u, 5).value;
    if x != 0 {
      AttrspecOutcome(additional, entityTypes, depth, u1);
      var u2 := ArbitraryAttrspec(additional, entityTypes, depth, u1).value.1;
      var (y, u3) := ReadIndex(u2, 2).value;
      if y != 0 { TypeOutcome(additional, entityTypes, depth, u3); }
    }
  }

  lemma {:induction false} DeclsOutcome(
      additional: bool, entityTypes: seq<Name>, depth: nat, entities: seq<(string, seq<Name>)>, u: Unstructured)
    requires ArbitraryDecls(additional, entityTypes, depth, entities, u).Ok?
    ensures CanDecls(additional, entityTypes, depth, entities,
                     ArbitraryDecls(additional, entityTypes, depth, entities, u).value.0)
    decreases entities
  {
    if entities != [] {
      DeclOutcome(additional, entityTypes, depth, entities[0].1, u);
      DeclsOutcome(additional, entityTypes, depth, entities[1..],
                   ArbitraryDecl(additional, entityTypes, depth, entities[0].1, u).value.1);
    }
  }

  lemma {:induction false} ActionsOutcome(
      additional: bool, entityTypes: seq<Name>, depth: nat, outlines: seq<ActionOutline>, u: Unstructured)
    requires ArbitraryActions(additional, entityTypes, depth, outlines, u).Ok?
    ensures CanActions(additional, entityTypes, depth, outlines,
                       ArbitraryActions(additional, entityTypes, depth, outlines, u).value.0)
    decreases outlines
  {
    if outlines != [] {
      AttrspecOutcome(additional, entityTypes, depth, u);
      var u1 := ArbitraryAttrspec(additional, entityTypes, depth, u).value.1;
      ActionsOutcome(additional, entityTypes, depth, outlines[1..], ReadNotes(u1).value.1);
    }
  }

  lemma DrawAttrspec(additional: bool, entityTypes: seq<Name>, depth: nat, ty: SchemaType, rest: Unstructured)
    returns (u: Unstructured)
    requires CanAttrspec(additional, entityTypes, depth, ty)
    ensures ArbitraryAttrspec(additional, entityTypes, depth, u) == Ok((ty, rest))
  {
    u := DrawAdditional(additional, ty.additional, rest);
    u := DrawAttributes(additional, entityTypes, depth, ty.attributes, u);
    u := DrawList([], Keys(ty.attributes), u);
    assert [] + Keys(ty.attributes) == Keys(ty.attributes);
  }

  lemma DrawTags(
      additional: bool, entityTypes: seq<Name>, depth: nat, tags: Option<SchemaType>, rest: Unstructured)
    returns (u: Unstructured)
    requires tags.Some? ==> CanType(additional, entityTypes, depth, tags.value)
    ensures ArbitraryTags(additional, entityTypes, depth, u) == Ok((tags, rest))
  {
    var u1 := rest;
    if tags.Some? { u1 := DrawType(additional, entityTypes, depth, tags.value, rest); }
    u := [Pick(if tags.Some? then 1 else 0)] + u1;
    assert u[1..] == u1;
  }

  lemma DrawDecl(
      additional: bool, entityTypes: seq<Name>, depth: nat, parents: seq<Name>, e: EntityDecl, rest: Unstructured)
    returns (u: Unstructured)
    requires CanDecl(additional, entityTypes, depth, parents, e)
    ensures ArbitraryDecl(additional, entityTypes, depth, parents, u) == Ok((e, rest))
  {
    var last := [Notes(map[])] + rest;
    assert last[1..] == rest;
    match e {
      case Enum(choices) =>
        var u1 := DrawList([], choices, last);
        assert [] + choices == choices;
        u := [Pick(0)] + u1;
        assert u[1..] == u1;
      case Standard(_, shape, tags) =>
        var u2 := DrawTags(additional, entityTypes, depth, tags, last);
        var u1 := DrawAttrspec(additional, entityTypes, depth, shape, u2);
        u := [Pick(1)] + u1;
        assert u[1..] == u1;
    }
  }

  lemma {:induction false} DrawDecls(
      additional: bool, entityTypes: seq<Name>, depth: nat, entities: seq<(string, seq<Name>)>,
      es: seq<(string, EntityDecl)>, rest: Unstructured)
    returns (u: Unstructured)
    requires CanDecls(additional, entityTypes, depth, entities, es)
    ensures ArbitraryDecls(additional, entityTypes, depth, entities, u) == Ok((es, rest))
    decreases es
  {
    u := rest;
    if es != [] {
      var u1 := DrawDecls(additional, entityTypes, depth, entities[1..], es[1..], rest);
      u := DrawDecl(additional, entityTypes, depth, entities[0].1, es[0].1, u1);
      assert es == [(entities[0].0, es[0].1)] + es[1..];
    }
  }

  lemma {:induction false} DrawActions(
      additional: bool, entityTypes: seq<Name>, depth: nat, outlines: seq<ActionOutline>,
      acts: seq<(string, ActionDecl)>, rest: Unstructured)
    returns (u: Unstructured)
    requires CanActions(additional, entityTypes, depth, outlines, acts)
    ensures ArbitraryActions(additional, entityTypes, depth, outlines, u) == Ok((acts, rest))
    decreases acts
  {
    u := rest;
    if acts != [] {
      assert CanAction(additional, entityTypes, depth, outlines[0], acts[0]);
      var u2 := DrawActions(additional, entityTypes, depth, outlines[1..], acts[1..], rest);
      var u1 := [Notes(map[])] + u2;
      assert u1[1..] == u2;
      u := DrawAttrspec(additional, entityTypes, depth, acts[0].1.appliesTo.value.context, u1);
      assert acts == [acts[0]] + acts[1..];
    }
  }

  /** Exactly which schemas a run produces, over given names, parents and action outlines: all whose
      shapes, tags and contexts are within the bounds. */
  lemma SchemaIff(additional: bool, depth: nat, outline: Outline, schema: Namespace)
    ensures CanSchema(additional, depth, outline, schema)
       <==> exists u :: && ArbitrarySchema(additional, depth, outline, u).Ok?
                        && ArbitrarySchema(additional, depth, outline, u).value.0 == schema
  {
    if CanSchema(additional, depth, outline, schema) {
      var u1 := DrawActions(additional, outline.entityTypes, depth, outline.actions, schema.actions, []);
      var u := DrawDecls(additional, outline.entityTypes, depth, outline.entities, schema.entityTypes, u1);
      assert ArbitrarySchema(additional, depth, outline, u).Ok?;
    }
    if u :| && ArbitrarySchema(additional, depth, outline, u).Ok?
            && ArbitrarySchema(additional, depth, outline, u).value.0 == schema
    {
      DeclsOutcome(additional, outline.entityTypes, depth, outline.entities, u);
      ActionsOutcome(additional, outline.entityTypes, depth, outline.actions,
                     ArbitraryDecls(additional, outline.entityTypes, depth, outline.entities, u).value.1);
    }
  }

  // ----- the attributes of all levels -----

  function AttributesOfAll(tys: seq<SchemaType>): seq<SchemaType> {
    if tys == [] then [] else AttributeTypes(tys[0]) + AttributesOfAll(tys[1..])
  }

  lemma {:induction false} AttributesOfAllConcat(s: seq<SchemaType>, t: seq<SchemaType>)
    ensures AttributesOfAll(s + t) == AttributesOfAll(s) + AttributesOfAll(t)
  {
    if s == [] {
      assert s + t == t;
    } else {
      assert (s + t)[1..] == s[1..] + t;
      AttributesOfAllConcat(s[1..], t);
    }
  }

  /** Without definitions, the attributes listed for a type are those of all records in it, outermost
      first. */
  lemma {:induction false} AttrsOfAllRecords(ty: SchemaType, fuel: nat)
    ensures AttrsIn(map[], ty, fuel) == Done(AttributesOfAll(CommonTypesOutcomes.Subterms(ty)))
    decreases ty
  {
    var inside := CommonTypesOutcomes.Subterms(ty)[1..];
    assert CommonTypesOutcomes.Subterms(ty) == [ty] + inside;
    AttributesOfAllConcat([ty], inside);
    assert AttributesOfAll([ty]) == AttributeTypes(ty) + AttributesOfAll([]);
    assert !ty.Record? ==> AttributeTypes(ty) + AttributesOfAll(inside) == AttributesOfAll(inside);
    match ty
    case Set(element) =>
      AttrsOfAllRecords(element, fuel);
      assert inside == CommonTypesOutcomes.Subterms(element);
    case Record(attributes, _) =>
      AttrsOfAllAttributes(attributes, fuel);
      assert inside == CommonTypesOutcomes.AttributeSubterms(attributes);
    case _ => assert inside == [];
  }

  lemma {:induction false} AttrsOfAllAttributes(attributes: seq<Attribute>, fuel: nat)
    ensures AttrsInAttributes(map[], attributes, fuel)
         == Done(AttributesOfAll(CommonTypesOutcomes.AttributeSubterms(attributes)))
    decreases attributes
  {
    if attributes != [] {
      AttrsOfAllRecords(attributes[0].ty, fuel);
      AttrsOfAllAttributes(attributes[1..], fuel);
      AttributesOfAllConcat(CommonTypesOutcomes.Subterms(attributes[0].ty),
                            CommonTypesOutcomes.AttributeSubterms(attributes[1..]));
    }
  }
}

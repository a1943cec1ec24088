/** Common-type introduction: replacing repeated schema types by references to fresh common types.

    The functions say what a run computes from the choices it reads; the class `Bindings` does it in
    place and is proved against them.  CommonTypesProofs states what a run keeps. */
module CommonTypes {
  import opened Wrappers
  import opened Choices
  import opened SchemaTypes

  /** Types bound to the ids that will name them, and every id in use */
  datatype Binds = Binds(bindings: map<SchemaType, seq<string>>, ids: set<string>)

  const NO_BINDS := Binds(map[], {})

  ghost function AtLeast(ids: set<string>, n: nat): set<string> {
    set s | s in ids && |s| >= n
  }

  /** The first of id, id + "___", id + "______", .. that is not in use */
  function FreshId(ids: set<string>, id: string): string
    decreases AtLeast(ids, |id|)
  {
    if id in ids then
      assert id in AtLeast(ids, |id|) - AtLeast(ids, |id + "___"|);
      FreshId(ids, id + "___")
    else id
  }

  /** The binding is always added, under a fresh variant of the id when the id is taken. */
  function Add(b: Binds, ty: SchemaType, id: string): Binds {
    var newId := FreshId(b.ids, id);
    var named := if ty in b.bindings then b.bindings[ty] else [];
    Binds(b.bindings[ty := named + [newId]], b.ids + {newId})
  }

  /** `bind_type` */
  function BindType(b: Binds, ty: SchemaType, u: Unstructured): Drawn<(Binds, Unstructured)>
    decreases ty
  {
    var (heads, u1) :- ReadFlip(u);
    var (b2, u2) :- if heads then AddArbitrary(b, ty, u1) else Ok((b, u1));
    match ty
    case Set(element) => BindType(b2, element, u2)
    case Record(attributes, _) => BindAttributes(b2, attributes, u2)
    case CommonTypeRef(_) => Err(Panicked)
    case _ => Ok((b2, u2))
  }

  function AddArbitrary(b: Binds, ty: SchemaType, u: Unstructured): Drawn<(Binds, Unstructured)> {
    var (id, u1) :- ReadText(u);
    Ok((Add(b, ty, id), u1))
  }

  function BindAttributes(b: Binds, attributes: seq<Attribute>, u: Unstructured): Drawn<(Binds, Unstructured)>
    decreases attributes
  {
    if attributes == [] then Ok((b, u))
    else
      var (b1, u1) :- BindType(b, attributes[0].ty, u);
      BindAttributes(b1, attributes[1..], u1)
  }

  function BindAll(b: Binds, tys: seq<SchemaType>, u: Unstructured): Drawn<(Binds, Unstructured)>
    decreases tys
  {
    if tys == [] then Ok((b, u))
    else
      var (b1, u1) :- BindType(b, tys[0], u);
      BindAll(b1, tys[1..], u1)
  }

  /** `rewrite_type`: a bound type becomes a reference to one of its ids. */
  function RewriteType(b: Binds, ty: SchemaType, u: Unstructured): Drawn<(SchemaType, Unstructured)>
    decreases ty, 1
  {
    if ty in b.bindings then
      var (i, u1) :- ReadIndex(u, |b.bindings[ty]|);
      Ok((CommonTypeRef(Name([], b.bindings[ty][i])), u1))
    else RewriteSubterms(b, ty, u)
  }

  /** `rewrite_type_subterms` leaves the type itself alone. */
  function RewriteSubterms(b: Binds, ty: SchemaType, u: Unstructured): Drawn<(SchemaType, Unstructured)>
    decreases ty, 0
  {
    match ty
    case CommonTypeRef(_) => Err(Panicked)
    case Set(element) =>
      var (e, u1) :- RewriteType(b, element, u);
      Ok((Set(e), u1))
    case Record(attributes, additional) =>
      var (attrs, u1) :- RewriteAttributes(b, attributes, u);
      Ok((Record(attrs, additional), u1))
    case _ => Ok((ty, u))
  }

  function RewriteAttributes(b: Binds, attributes: seq<Attribute>, u: Unstructured)
    : Drawn<(seq<Attribute>, Unstructured)>
    decreases attributes
  {
    if attributes == [] then Ok(([], u))
    else
      var (ty, u1) :- RewriteType(b, attributes[0].ty, u);
      var (rest, u2) :- RewriteAttributes(b, attributes[1..], u1);
      Ok(([attributes[0].(ty := ty)] + rest, u2))
  }

  function RewriteOption(b: Binds, ty: Option<SchemaType>, u: Unstructured): Drawn<(Option<SchemaType>, Unstructured)> {
    match ty
    case None => Ok((None, u))
    case Some(t) =>
      var (t', u1) :- RewriteType(b, t, u);
      Ok((Some(t'), u1))
  }

  /** The first `n` links of a chain: ids[0] = ids[1], .., ids[n - 1] = ids[n] */
  function Links(done: Definitions, ids: seq<string>, n: nat): Definitions
    requires n < |ids|
  {
    if n == 0 then done
    else Links(done, ids, n - 1)[ids[n - 1] := CommonTypeRef(Name([], ids[n]))]
  }

  /** Each id defined as the next one, and the last id as the body */
  function Chain(done: Definitions, ids: seq<string>, body: SchemaType): Definitions
    requires ids != []
  {
    Links(done, ids, |ids| - 1)[ids[|ids| - 1] := body]
  }

  /** `to_common_types` on the bound types not yet visited, in the map's iteration order */
  function ToCommonTypes(b: Binds, keys: seq<SchemaType>, done: Definitions, u: Unstructured)
    : Drawn<(Definitions, Unstructured)>
    requires forall k <- keys :: k in b.bindings
  {
    if keys == [] then Ok((done, u))
    else if b.bindings[keys[0]] == [] then ToCommonTypes(b, keys[1..], done, u)
    else
      var (body, u1) :- RewriteSubterms(b, keys[0], u);
      ToCommonTypes(b, keys[1..], Chain(done, b.bindings[keys[0]], body), u1)
  }

  // ----- the part of a namespace definition that carries types -----

  datatype EntityDecl =
    | Enum(choices: seq<string>)
    | Standard(memberOfTypes: seq<Name>, shape: SchemaType, tags: Option<SchemaType>)

  datatype ApplySpec = ApplySpec(resourceTypes: seq<Name>, principalTypes: seq<Name>, context: SchemaType)

  datatype ActionDecl = ActionDecl(memberOf: Option<seq<Name>>, appliesTo: Option<ApplySpec>)

  datatype Namespace = Namespace(
    commonTypes: Definitions,
    entityTypes: seq<(string, EntityDecl)>,
    actions: seq<(string, ActionDecl)>)

  function RewriteEntity(b: Binds, e: EntityDecl, u: Unstructured): Drawn<(EntityDecl, Unstructured)> {
    match e
    case Enum(_) => Ok((e, u))
    case Standard(parents, shape, tags) =>
      var (shape', u1) :- RewriteType(b, shape, u);
      var (tags', u2) :- RewriteOption(b, tags, u1);
      Ok((Standard(parents, shape', tags'), u2))
  }

  function RewriteEntities(b: Binds, es: seq<(string, EntityDecl)>, u: Unstructured)
    : Drawn<(seq<(string, EntityDecl)>, Unstructured)>
  {
    if es == [] then Ok(([], u))
    else
      var (e, u1) :- RewriteEntity(b, es[0].1, u);
      var (rest, u2) :- RewriteEntities(b, es[1..], u1);
      Ok(([(es[0].0, e)] + rest, u2))
  }

  function RewriteAction(b: Binds, a: ActionDecl, u: Unstructured): Drawn<(ActionDecl, Unstructured)> {
    match a.appliesTo
    case None => Ok((a, u))
    case Some(spec) =>
      var (context, u1) :- RewriteType(b, spec.context, u);
      Ok((ActionDecl(a.memberOf, Some(ApplySpec(spec.resourceTypes, spec.principalTypes, context))), u1))
  }

  function RewriteActions(b: Binds, acts: seq<(string, ActionDecl)>, u: Unstructured)
    : Drawn<(seq<(string, ActionDecl)>, Unstructured)>
  {
    if acts == [] then Ok(([], u))
    else
      var (a, u1) :- RewriteAction(b, acts[0].1, u);
      var (rest, u2) :- RewriteActions(b, acts[1..], u1);
      Ok(([(acts[0].0, a)] + rest, u2))
  }

  function TagTypes(es: seq<(string, EntityDecl)>): seq<SchemaType> {
    if es == [] then []
    else (if es[0].1.Standard? && es[0].1.tags.Some? then [es[0].1.tags.value] else []) + TagTypes(es[1..])
  }

  /** The iteration order of a map keyed by schema types */
  type KeyOrder = set<SchemaType> -> seq<SchemaType>

  ghost predicate IsOrder(order: KeyOrder) {
    forall s :: (forall t :: t in order(s) <==> t in s)
  }

  function BindSchema(attributes: seq<SchemaType>, schema: Namespace, u: Unstructured): Drawn<(Binds, Unstructured)> {
    var (b1, u1) :- BindAll(NO_BINDS, attributes, u);
    BindAll(b1, TagTypes(schema.entityTypes), u1)
  }

  /** `Schema::add_common_types` on the schema's attribute list and namespace definition.  Every new
      common type gets annotations, which are drawn last and not kept here. */
  function AddCommonTypes(attributes: seq<SchemaType>, schema: Namespace, order: KeyOrder, u: Unstructured)
    : Drawn<(Namespace, Unstructured)>
    requires IsOrder(order)
  {
    var (b, u1) :- BindSchema(attributes, schema, u);
    var (defs, u2) :- ToCommonTypes(b, order(b.bindings.Keys), map[], u1);
    var (entities, u3) :- RewriteEntities(b, schema.entityTypes, u2);
    var (actions, u4) :- RewriteActions(b, schema.actions, u3);
    var u5 :- SkipNotes(|defs|, u4);
    Ok((Namespace(defs, entities, actions), u5))
  }

  // ----- the same run, in place -----

  class Bindings {
    var bindings: map<SchemaType, seq<string>>
    var ids: set<string>

    function State(): Binds
      reads this
    {
      Binds(bindings, ids)
    }

    constructor ()
      ensures State() == NO_BINDS
    {
      bindings, ids := map[], {};
    }

    /** `add_binding`: the renaming loop ends because the candidates lengthen and `ids` is finite. */
    method AddBinding(ty: SchemaType, id: string)
      modifies this
      ensures State() == Add(old(State()), ty, id)
    {
      var newId := id;
      while newId in ids
        invariant FreshId(ids, newId) == FreshId(ids, id)
        decreases AtLeast(ids, |newId|)
      {
        assert newId in AtLeast(ids, |newId|) - AtLeast(ids, |newId + "___"|);
        newId := newId + "___";
      }
      ids := ids + {newId};
      if ty in bindings {
        bindings := bindings[ty := bindings[ty] + [newId]];
      } else {
        assert [] + [newId] == [newId];
        bindings := bindings[ty := [newId]];
      }
    }

    /** `bind_type` */
    method Bind(ty: SchemaType, u: Unstructured) returns (r: Drawn<Unstructured>)
      modifies this
      ensures r.Ok? ==> BindType(old(State()), ty, u) == Ok((State(), r.value))
      ensures r.Err? ==> BindType(old(State()), ty, u) == Err(r.error)
      decreases ty
    {
      var flip :- ReadFlip(u);
      var rest := flip.1;
      if flip.0 {
        var text :- ReadText(rest);
        rest := text.1;
        AddBinding(ty, text.0);
      }
      match ty {
        case Set(element) =>
          r := Bind(element, rest);
        case Record(attributes, _) =>
          ghost var b0, u0 := State(), rest;
          for i := 0 to |attributes|
            invariant BindAttributes(b0, attributes, u0) == BindAttributes(State(), attributes[i..], rest)
          {
            assert attributes[i..][1..] == attributes[i + 1..];
            rest :- Bind(attributes[i].ty, rest);
          }
          r := Ok(rest);
        case CommonTypeRef(_) =>
          r := Err(Panicked);
        case _ =>
          r := Ok(rest);
      }
    }

    /** `to_common_types`, given the keys of the map in its iteration order */
    method CommonTypes(keys: seq<SchemaType>, u: Unstructured) returns (r: Drawn<(Definitions, Unstructured)>)
      requires forall k <- keys :: k in bindings
      ensures r == ToCommonTypes(State(), keys, map[], u)
    {
      var commonTypes: Definitions := map[];
      var rest := u;
      for k := 0 to |keys|
        invariant ToCommonTypes(State(), keys, map[], u) == ToCommonTypes(State(), keys[k..], commonTypes, rest)
      {
        assert keys[k..][1..] == keys[k + 1..];
        var named := bindings[keys[k]];
        if |named| == 1 {
          var rewritten :- RewriteSubterms(State(), keys[k], rest);
          rest := rewritten.1;
          commonTypes := commonTypes[named[0] := rewritten.0];
        } else if |named| > 1 {
          ghost var before := commonTypes;
          for i := 0 to |named| - 1
            invariant commonTypes == Links(before, named, i)
          {
            commonTypes := commonTypes[named[i] := CommonTypeRef(Name([], named[i + 1]))];
          }
          var rewritten :- RewriteSubterms(State(), keys[k], rest);
          rest := rewritten.1;
          commonTypes := commonTypes[named[|named| - 1] := rewritten.0];
        }
      }
      r := Ok((commonTypes, rest));
    }
  }

  /** Annotations for every new common type */
  method DrawNotes(n: nat, u: Unstructured) returns (r: Drawn<Unstructured>)
    ensures r == SkipNotes(n, u)
  {
    var rest := u;
    for k := 0 to n
      invariant SkipNotes(n, u) == SkipNotes(n - k, rest)
    {
      var notes :- ReadNotes(rest);
      rest := notes.1;
    }
    r := Ok(rest);
  }

  /** `Schema::add_common_types` */
  method IntroduceCommonTypes(attributes: seq<SchemaType>, schema: Namespace, order: KeyOrder, u: Unstructured)
    returns (r: Drawn<(Namespace, Unstructured)>)
    requires IsOrder(order)
    ensures r == AddCommonTypes(attributes, schema, order, u)
  {
    var bindings := new Bindings();
    var rest := u;
    for i := 0 to |attributes|
      invariant fresh(bindings)
      invariant BindAll(NO_BINDS, attributes, u) == BindAll(bindings.State(), attributes[i..], rest)
    {
      assert attributes[i..][1..] == attributes[i + 1..];
      rest :- bindings.Bind(attributes[i], rest);
    }
    assert BindAll(NO_BINDS, attributes, u) == Ok((bindings.State(), rest));
    ghost var b1, u1 := bindings.State(), rest;
    var es := schema.entityTypes;
    for i := 0 to |es|
      invariant fresh(bindings)
      invariant BindAll(b1, TagTypes(es), u1) == BindAll(bindings.State(), TagTypes(es[i..]), rest)
    {
      assert es[i..][1..] == es[i + 1..];
      if es[i].1.Standard? && es[i].1.tags.Some? {
        assert TagTypes(es[i..])[1..] == TagTypes(es[i + 1..]);
        rest :- bindings.Bind(es[i].1.tags.value, rest);
      } else {
        assert TagTypes(es[i..]) == TagTypes(es[i + 1..]);
      }
    }
    assert BindAll(b1, TagTypes(es), u1) == Ok((bindings.State(), rest));
    var b := bindings.State();
    var defs :- bindings.CommonTypes(order(b.bindings.Keys), rest);
    var entities :- RewriteEntities(b, es, defs.1);
    var actions :- RewriteActions(b, schema.actions, entities.1);
    rest :- DrawNotes(|defs.0|, actions.1);
    r := Ok((Namespace(defs.0, entities.0, actions.0), rest));
  }
}

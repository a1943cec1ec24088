/** The outcomes of common-type introduction: exactly which bindings and which rewritten schemas a run can
    end with, and that no bound type is left where it could be a reference. */
module CommonTypesOutcomes {
  import opened Wrappers
  import opened Choices
  import opened SchemaTypes
  import opened CommonTypes
  import opened CommonTypesProofs
  import opened CommonTypesTheorems
  import opened CommonTypesRuns
  import opened CommonTypesReferences

  // ----- bindings: any selection of subterms, each with any id -----

  /** The type and all its subterms, outermost first */
  function Subterms(ty: SchemaType): seq<SchemaType>
    decreases ty
  {
    match ty
    case Set(element) => [ty] + Subterms(element)
    case Record(attributes, _) => [ty] + AttributeSubterms(attributes)
    case _ => [ty]
  }

  function AttributeSubterms(attributes: seq<Attribute>): seq<SchemaType>
    decreases attributes
  {
    if attributes == [] then [] else Subterms(attributes[0].ty) + AttributeSubterms(attributes[1..])
  }

  function AllSubterms(tys: seq<SchemaType>): seq<SchemaType> {
    if tys == [] then [] else Subterms(tys[0]) + AllSubterms(tys[1..])
  }

  /** For each type, whether it is bound and to which id */
  type Picks = seq<Option<string>>

  function BindPicks(b: Binds, tys: seq<SchemaType>, picks: Picks): Binds
    requires |picks| == |tys|
    decreases tys
  {
    if tys == [] then b
    else BindPicks(if picks[0].Some? then Add(b, tys[0], picks[0].value) else b, tys[1..], picks[1..])
  }

  function PickChoice(pick: Option<string>): Unstructured {
    if pick.Some? then [Flip(true), Text(pick.value)] else [Flip(false)]
  }

  function PickChoices(picks: Picks): Unstructured {
    if picks == [] then [] else PickChoice(picks[0]) + PickChoices(picks[1..])
  }

  lemma {:induction false} PicksConcat(b: Binds, s: seq<SchemaType>, t: seq<SchemaType>, p: Picks, q: Picks)
    requires |s| == |p| && |t| == |q|
    ensures BindPicks(b, s + t, p + q) == BindPicks(BindPicks(b, s, p), t, q)
    ensures PickChoices(p + q) == PickChoices(p) + PickChoices(q)
    decreases s
  {
    if s == [] {
      assert s + t == t && p + q == q;
    } else {
      assert (s + t)[1..] == s[1..] + t && (p + q)[1..] == p[1..] + q;
      PicksConcat(if p[0].Some? then Add(b, s[0], p[0].value) else b, s[1..], t, p[1..], q);
    }
  }

  /** The choices for one type, and nothing else */
  ghost predicate BindsAs(
      b: Binds, tys: seq<SchemaType>, picks: Picks, u: Unstructured, b': Binds, rest: Unstructured)
  {
    |picks| == |tys| && u == PickChoices(picks) + rest && b' == BindPicks(b, tys, picks)
  }

  lemma BindsInTurn(
      b: Binds, s: seq<SchemaType>, p: Picks, u: Unstructured, b1: Binds, u1: Unstructured,
      t: seq<SchemaType>, q: Picks, b2: Binds, rest: Unstructured)
    requires BindsAs(b, s, p, u, b1, u1) && BindsAs(b1, t, q, u1, b2, rest)
    ensures BindsAs(b, s + t, p + q, u, b2, rest)
  {
    PicksConcat(b, s, t, p, q);
  }

  /** The coin for the type itself */
  lemma TopPick(b: Binds, ty: SchemaType, u: Unstructured) returns (p: Picks, b1: Binds, u1: Unstructured)
    requires ReadFlip(u).Ok?
    requires ReadFlip(u).value.0 ==> ReadText(ReadFlip(u).value.1).Ok?
    ensures BindsAs(b, [ty], p, u, b1, u1)
    ensures var (heads, rest) := ReadFlip(u).value;
            (b1, u1) == if heads then AddArbitrary(b, ty, rest).value else (b, rest)
  {
    var (heads, rest) := ReadFlip(u).value;
    var none: seq<SchemaType> := [];
    assert [ty][1..] == none;
    if heads {
      var (id, rest') := ReadText(rest).value;
      p, b1, u1 := [Some(id)], Add(b, ty, id), rest';
      assert p[1..] == [] && PickChoices(p) == [Flip(true), Text(id)] + PickChoices([]);
      assert u == [Flip(true), Text(id)] + rest';
    } else {
      p, b1, u1 := [None], b, rest;
      assert p[1..] == [] && PickChoices(p) == [Flip(false)] + PickChoices([]);
      assert u == [Flip(false)] + rest;
    }
    assert BindPicks(b1, none, p[1..]) == b1;
  }

  lemma {:induction false} BindOutcome(b: Binds, ty: SchemaType, u: Unstructured) returns (p: Picks)
    requires BindType(b, ty, u).Ok?
    ensures BindsAs(b, Subterms(ty), p, u, BindType(b, ty, u).value.0, BindType(b, ty, u).value.1)
    decreases ty
  {
    var b1, u1;
    p, b1, u1 := TopPick(b, ty, u);
    match ty {
      case Set(element) =>
        var q := BindOutcome(b1, element, u1);
        var (b2, rest) := BindType(b1, element, u1).value;
        BindsInTurn(b, [ty], p, u, b1, u1, Subterms(element), q, b2, rest);
        p := p + q;
      case Record(attributes, _) =>
        var q := BindAttributesOutcome(b1, attributes, u1);
        var (b2, rest) := BindAttributes(b1, attributes, u1).value;
        BindsInTurn(b, [ty], p, u, b1, u1, AttributeSubterms(attributes), q, b2, rest);
        p := p + q;
      case _ =>
    }
  }

  lemma {:induction false} BindAttributesOutcome(b: Binds, attributes: seq<Attribute>, u: Unstructured)
    returns (p: Picks)
    requires BindAttributes(b, attributes, u).Ok?
    ensures BindsAs(b, AttributeSubterms(attributes), p, u,
                    BindAttributes(b, attributes, u).value.0, BindAttributes(b, attributes, u).value.1)
    decreases attributes
  {
    p := [];
    if attributes == [] {
      assert u == PickChoices(p) + u;
    } else {
      var ty := attributes[0].ty;
      p := BindOutcome(b, ty, u);
      var (b1, u1) := BindType(b, ty, u).value;
      var q := BindAttributesOutcome(b1, attributes[1..], u1);
      var (b2, rest) := BindAttributes(b1, attributes[1..], u1).value;
      BindsInTurn(b, Subterms(ty), p, u, b1, u1, AttributeSubterms(attributes[1..]), q, b2, rest);
      p := p + q;
    }
  }

  lemma {:induction false} BindAllOutcome(b: Binds, tys: seq<SchemaType>, u: Unstructured) returns (p: Picks)
    requires BindAll(b, tys, u).Ok?
    ensures BindsAs(b, AllSubterms(tys), p, u, BindAll(b, tys, u).value.0, BindAll(b, tys, u).value.1)
    decreases tys
  {
    p := [];
    if tys == [] {
      assert u == PickChoices(p) + u;
    } else {
      p := BindOutcome(b, tys[0], u);
      var (b1, u1) := BindType(b, tys[0], u).value;
      var q := BindAllOutcome(b1, tys[1..], u1);
      var (b2, rest) := BindAll(b1, tys[1..], u1).value;
      BindsInTurn(b, Subterms(tys[0]), p, u, b1, u1, AllSubterms(tys[1..]), q, b2, rest);
      p := p + q;
    }
  }

  lemma {:induction false} TypeFromPicks(b: Binds, ty: SchemaType, p: Picks, rest: Unstructured)
    requires |p| == |Subterms(ty)| && NoReference(ty)
    ensures BindType(b, ty, PickChoices(p) + rest) == Ok((BindPicks(b, Subterms(ty), p), rest))
    decreases ty
  {
    var u := PickChoices(p) + rest;
    var u1 := PickChoices(p[1..]) + rest;
    var b1 := if p[0].Some? then Add(b, ty, p[0].value) else b;
    FirstPick(p, rest);
    ReadPick(p[0], u1);
    match ty
    case Set(element) =>
      assert Subterms(ty)[1..] == Subterms(element);
      TypeFromPicks(b1, element, p[1..], rest);
    case Record(attributes, _) =>
      assert Subterms(ty)[1..] == AttributeSubterms(attributes);
      AttributesFromPicks(b1, attributes, p[1..], rest);
    case CommonTypeRef(_) =>
    case _ =>
      assert p[1..] == [] && Subterms(ty)[1..] == [];
      assert u1 == rest;
  }

  lemma ReadPick(pick: Option<string>, u1: Unstructured)
    ensures var u := PickChoice(pick) + u1;
            && ReadFlip(u).Ok? && ReadFlip(u).value.0 == pick.Some?
            && if pick.Some? then ReadText(ReadFlip(u).value.1) == Ok((pick.value, u1)) else ReadFlip(u).value.1 == u1
  {
    if pick.Some? { assert (PickChoice(pick) + u1)[1..][1..] == u1; }
  }

  lemma FirstPick(p: Picks, rest: Unstructured)
    requires p != []
    ensures PickChoices(p) + rest == PickChoice(p[0]) + (PickChoices(p[1..]) + rest)
  {
  }

  lemma {:induction false} AttributesFromPicks(b: Binds, attributes: seq<Attribute>, p: Picks, rest: Unstructured)
    requires |p| == |AttributeSubterms(attributes)| && forall a <- attributes :: NoReference(a.ty)
    ensures BindAttributes(b, attributes, PickChoices(p) + rest)
         == Ok((BindPicks(b, AttributeSubterms(attributes), p), rest))
    decreases attributes
  {
    if attributes == [] {
      assert PickChoices(p) + rest == rest;
    } else {
      var s, t := Subterms(attributes[0].ty), AttributeSubterms(attributes[1..]);
      assert attributes[0] in attributes && p == p[..|s|] + p[|s|..];
      PicksConcat(b, s, t, p[..|s|], p[|s|..]);
      assert PickChoices(p) + rest == PickChoices(p[..|s|]) + (PickChoices(p[|s|..]) + rest);
      TypeFromPicks(b, attributes[0].ty, p[..|s|], PickChoices(p[|s|..]) + rest);
      AttributesFromPicks(BindPicks(b, s, p[..|s|]), attributes[1..], p[|s|..], rest);
    }
  }

  lemma {:induction false} AllFromPicks(b: Binds, tys: seq<SchemaType>, p: Picks, rest: Unstructured)
    requires |p| == |AllSubterms(tys)| && forall ty <- tys :: NoReference(ty)
    ensures BindAll(b, tys, PickChoices(p) + rest) == Ok((BindPicks(b, AllSubterms(tys), p), rest))
    decreases tys
  {
    if tys == [] {
      assert PickChoices(p) + rest == rest;
    } else {
      var s, t := Subterms(tys[0]), AllSubterms(tys[1..]);
      assert tys[0] in tys && p == p[..|s|] + p[|s|..];
      PicksConcat(b, s, t, p[..|s|], p[|s|..]);
      assert PickChoices(p) + rest == PickChoices(p[..|s|]) + (PickChoices(p[|s|..]) + rest);
      TypeFromPicks(b, tys[0], p[..|s|], PickChoices(p[|s|..]) + rest);
      AllFromPicks(BindPicks(b, s, p[..|s|]), tys[1..], p[|s|..], rest);
    }
  }

  // ----- rewriting: any id of a bound type, and nothing else changes -----

  ghost predicate Rewritten(b: Binds, ty: SchemaType, ty': SchemaType)
    decreases ty, 1
  {
    if ty in b.bindings then exists id <- b.bindings[ty] :: ty' == CommonTypeRef(Name([], id))
    else BodyOf(b, ty, ty')
  }

  /** The same for a type that stays, whether or not it is bound */
  ghost predicate BodyOf(b: Binds, ty: SchemaType, ty': SchemaType)
    decreases ty, 0
  {
    match ty
    case CommonTypeRef(_) => false
    case Set(element) => ty'.Set? && Rewritten(b, element, ty'.element)
    case Record(attributes, additional) =>
      ty'.Record? && ty'.additional == additional && AttributesRewritten(b, attributes, ty'.attributes)
    case _ => ty' == ty
  }

  ghost predicate AttributesRewritten(b: Binds, attributes: seq<Attribute>, rewritten: seq<Attribute>)
    decreases attributes
  {
    if attributes == [] then rewritten == []
    else
      && rewritten != [] && rewritten[0] == attributes[0].(ty := rewritten[0].ty)
      && Rewritten(b, attributes[0].ty, rewritten[0].ty)
      && AttributesRewritten(b, attributes[1..], rewritten[1..])
  }

  lemma {:induction false} RewriteOutcome(b: Binds, ty: SchemaType, u: Unstructured)
    ensures RewriteType(b, ty, u).Ok? ==> Rewritten(b, ty, RewriteType(b, ty, u).value.0)
    ensures RewriteSubterms(b, ty, u).Ok? ==> BodyOf(b, ty, RewriteSubterms(b, ty, u).value.0)
    decreases ty
  {
    match ty
    case Set(element) => RewriteOutcome(b, element, u);
    case Record(attributes, _) => RewriteAttributesOutcome(b, attributes, u);
    case _ =>
  }

  lemma {:induction false} RewriteAttributesOutcome(b: Binds, attributes: seq<Attribute>, u: Unstructured)
    ensures RewriteAttributes(b, attributes, u).Ok?
            ==> AttributesRewritten(b, attributes, RewriteAttributes(b, attributes, u).value.0)
    decreases attributes
  {
    if attributes != [] {
      RewriteOutcome(b, attributes[0].ty, u);
      if RewriteType(b, attributes[0].ty, u).Ok? {
        RewriteAttributesOutcome(b, attributes[1..], RewriteType(b, attributes[0].ty, u).value.1);
        if RewriteAttributes(b, attributes, u).Ok? {
          var all := RewriteAttributes(b, attributes, u).value.0;
          assert all[1..] == RewriteAttributes(b, attributes[1..], RewriteType(b, attributes[0].ty, u).value.1).value.0;
        }
      }
    }
  }

  lemma {:induction false} RewriteTo(b: Binds, ty: SchemaType, ty': SchemaType, rest: Unstructured)
    returns (u: Unstructured)
    requires Rewritten(b, ty, ty')
    ensures RewriteType(b, ty, u) == Ok((ty', rest))
    decreases ty, 1
  {
    if ty in b.bindings {
      var i :| 0 <= i < |b.bindings[ty]| && ty' == CommonTypeRef(Name([], b.bindings[ty][i]));
      u := [Pick(i)] + rest;
      assert u[1..] == rest;
    } else {
      u := RewriteBodyTo(b, ty, ty', rest);
    }
  }

  lemma {:induction false} RewriteBodyTo(b: Binds, ty: SchemaType, ty': SchemaType, rest: Unstructured)
    returns (u: Unstructured)
    requires BodyOf(b, ty, ty')
    ensures RewriteSubterms(b, ty, u) == Ok((ty', rest))
    decreases ty, 0
  {
    u := rest;
    match ty {
      case Set(element) => u := RewriteTo(b, element, ty'.element, rest);
      case Record(attributes, _) => u := RewriteAttributesTo(b, attributes, ty'.attributes, rest);
      case _ =>
    }
  }

  lemma {:induction false} RewriteAttributesTo(
      b: Binds, attributes: seq<Attribute>, rewritten: seq<Attribute>, rest: Unstructured) returns (u: Unstructured)
    requires AttributesRewritten(b, attributes, rewritten)
    ensures RewriteAttributes(b, attributes, u) == Ok((rewritten, rest))
    decreases attributes
  {
    u := rest;
    if attributes != [] {
      var u1 := RewriteAttributesTo(b, attributes[1..], rewritten[1..], rest);
      u := RewriteTo(b, attributes[0].ty, rewritten[0].ty, u1);
      assert rewritten == [rewritten[0]] + rewritten[1..];
    }
  }

  // ----- whole schemas -----

  ghost predicate DeclRewritten(b: Binds, e: EntityDecl, e': EntityDecl) {
    match e
    case Enum(_) => e' == e
    case Standard(parents, shape, tags) =>
      && e'.Standard? && e'.memberOfTypes == parents && Rewritten(b, shape, e'.shape)
      && e'.tags.Some? == tags.Some? && (tags.Some? ==> Rewritten(b, tags.value, e'.tags.value))
  }

  ghost predicate EntitiesRewritten(b: Binds, es: seq<(string, EntityDecl)>, es': seq<(string, EntityDecl)>) {
    if es == [] then es' == []
    else
      && es' != [] && es'[0].0 == es[0].0 && DeclRewritten(b, es[0].1, es'[0].1)
      && EntitiesRewritten(b, es[1..], es'[1..])
  }

  ghost predicate ActionRewritten(b: Binds, a: ActionDecl, a': ActionDecl) {
    match a.appliesTo
    case None => a' == a
    case Some(spec) =>
      && a'.memberOf == a.memberOf && a'.appliesTo.Some?
      && a'.appliesTo.value == spec.(context := a'.appliesTo.value.context)
      && Rewritten(b, spec.context, a'.appliesTo.value.context)
  }

  ghost predicate ActionsRewritten(b: Binds, acts: seq<(string, ActionDecl)>, acts': seq<(string, ActionDecl)>) {
    if acts == [] then acts' == []
    else
      && acts' != [] && acts'[0].0 == acts[0].0 && ActionRewritten(b, acts[0].1, acts'[0].1)
      && ActionsRewritten(b, acts[1..], acts'[1..])
  }

  lemma {:induction false} EntitiesOutcome(b: Binds, es: seq<(string, EntityDecl)>, u: Unstructured)
    requires RewriteEntities(b, es, u).Ok?
    ensures EntitiesRewritten(b, es, RewriteEntities(b, es, u).value.0)
  {
    if es != [] {
      var e := es[0].1;
      if e.Standard? {
        RewriteOutcome(b, e.shape, u);
        if e.tags.Some? { RewriteOutcome(b, e.tags.value, RewriteType(b, e.shape, u).value.1); }
      }
      var u1 := RewriteEntity(b, e, u).value.1;
      EntitiesOutcome(b, es[1..], u1);
      assert RewriteEntities(b, es, u).value.0[1..] == RewriteEntities(b, es[1..], u1).value.0;
    }
  }

  lemma {:induction false} ActionsOutcome(b: Binds, acts: seq<(string, ActionDecl)>, u: Unstructured)
    requires RewriteActions(b, acts, u).Ok?
    ensures ActionsRewritten(b, acts, RewriteActions(b, acts, u).value.0)
  {
    if acts != [] {
      var a := acts[0].1;
      if a.appliesTo.Some? { RewriteOutcome(b, a.appliesTo.value.context, u); }
      var u1 := RewriteAction(b, a, u).value.1;
      ActionsOutcome(b, acts[1..], u1);
      assert RewriteActions(b, acts, u).value.0[1..] == RewriteActions(b, acts[1..], u1).value.0;
    }
  }

  lemma DeclTo(b: Binds, e: EntityDecl, e': EntityDecl, rest: Unstructured) returns (u: Unstructured)
    requires DeclRewritten(b, e, e')
    ensures RewriteEntity(b, e, u) == Ok((e', rest))
  {
    u := rest;
    if e.Standard? {
      if e.tags.Some? { u := RewriteTo(b, e.tags.value, e'.tags.value, u); }
      u := RewriteTo(b, e.shape, e'.shape, u);
    }
  }

  lemma {:induction false} EntitiesTo(
      b: Binds, es: seq<(string, EntityDecl)>, es': seq<(string, EntityDecl)>, rest: Unstructured)
    returns (u: Unstructured)
    requires EntitiesRewritten(b, es, es')
    ensures RewriteEntities(b, es, u) == Ok((es', rest))
  {
    u := rest;
    if es != [] {
      var u1 := EntitiesTo(b, es[1..], es'[1..], rest);
      u := DeclTo(b, es[0].1, es'[0].1, u1);
      assert es' == [(es[0].0, es'[0].1)] + es'[1..];
    }
  }

  lemma ActionTo(b: Binds, a: ActionDecl, a': ActionDecl, rest: Unstructured) returns (u: Unstructured)
    requires ActionRewritten(b, a, a')
    ensures RewriteAction(b, a, u) == Ok((a', rest))
  {
    u := rest;
    if a.appliesTo.Some? { u := RewriteTo(b, a.appliesTo.value.context, a'.appliesTo.value.context, rest); }
  }

  lemma {:induction false} ActionsTo(
      b: Binds, acts: seq<(string, ActionDecl)>, acts': seq<(string, ActionDecl)>, rest: Unstructured)
    returns (u: Unstructured)
    requires ActionsRewritten(b, acts, acts')
    ensures RewriteActions(b, acts, u) == Ok((acts', rest))
  {
    u := rest;
    if acts != [] {
      var u1 := ActionsTo(b, acts[1..], acts'[1..], rest);
      u := ActionTo(b, acts[0].1, acts'[0].1, u1);
      assert acts' == [(acts[0].0, acts'[0].1)] + acts'[1..];
    }
  }

  // ----- definitions -----

  /** Exactly the ids are defined: each as the next one of its list, and the last as its type with
      rewritten subterms. */
  ghost predicate DefinitionsOf(b: Binds, defs: Definitions) {
    defs.Keys == b.ids && forall t :: t in b.bindings ==> ChainOf(b, defs, t)
  }

  ghost predicate ChainOf(b: Binds, defs: Definitions, t: SchemaType)
    requires t in b.bindings
  {
    var ids := b.bindings[t];
    && ids != [] && (forall i :: 0 <= i < |ids| ==> ids[i] in defs)
    && (forall i :: 0 <= i < |ids| - 1 ==> defs[ids[i]] == CommonTypeRef(Name([], ids[i + 1])))
    && BodyOf(b, t, defs[ids[|ids| - 1]])
  }

  lemma DefinitionsOutcome(b: Binds, defs: Definitions)
    requires Valid(b) && Complete(b, defs)
    ensures DefinitionsOf(b, defs)
  {
    forall t | t in b.bindings
      ensures ChainOf(b, defs, t)
    {
      assert Defined(b, defs, t);
      var body := defs[b.bindings[t][|b.bindings[t]| - 1]];
      assert IsRewriting(b, t, body);
      var u, rest :| RewriteSubterms(b, t, u) == Ok((body, rest));
      RewriteOutcome(b, t, u);
    }
  }

  /** Part of the definitions */
  ghost predicate PartOf(done: Definitions, defs: Definitions) {
    forall id :: id in done ==> id in defs && done[id] == defs[id]
  }

  lemma {:induction false} LinksPart(done: Definitions, defs: Definitions, ids: seq<string>, n: nat)
    requires PartOf(done, defs) && n < |ids|
    requires forall i :: 0 <= i < n ==> ids[i] in defs && defs[ids[i]] == CommonTypeRef(Name([], ids[i + 1]))
    ensures PartOf(Links(done, ids, n), defs)
  {
    if n > 0 { LinksPart(done, defs, ids, n - 1); }
  }

  lemma {:induction false} DefineTo(
      b: Binds, defs: Definitions, keys: seq<SchemaType>, done: Definitions, rest: Unstructured)
    returns (u: Unstructured)
    requires DefinitionsOf(b, defs) && PartOf(done, defs) && forall k <- keys :: k in b.bindings
    ensures ToCommonTypes(b, keys, done, u).Ok? && ToCommonTypes(b, keys, done, u).value.1 == rest
    ensures PartOf(ToCommonTypes(b, keys, done, u).value.0, defs)
    decreases keys
  {
    u := rest;
    if keys != [] {
      assert keys[0] in keys && ChainOf(b, defs, keys[0]);
      var ids := b.bindings[keys[0]];
      var body := defs[ids[|ids| - 1]];
      LinksPart(done, defs, ids, |ids| - 1);
      var u1 := DefineTo(b, defs, keys[1..], Chain(done, ids, body), rest);
      u := RewriteBodyTo(b, keys[0], body, u1);
    }
  }

  // ----- the outcomes of a run -----

  lemma {:induction false} AllSubtermsConcat(s: seq<SchemaType>, t: seq<SchemaType>)
    ensures AllSubterms(s + t) == AllSubterms(s) + AllSubterms(t)
  {
    if s == [] {
      assert s + t == t;
    } else {
      AllSubtermsConcat(s[1..], t);
      assert (s + t)[1..] == s[1..] + t;
    }
  }

  /** Everything that a run may bind, place by place */
  function Places(attributes: seq<SchemaType>, schema: Namespace): seq<SchemaType> {
    AllSubterms(Bindable(attributes, schema))
  }

  ghost predicate IsOutcome(b: Binds, schema: Namespace, schema': Namespace) {
    && DefinitionsOf(b, schema'.commonTypes)
    && EntitiesRewritten(b, schema.entityTypes, schema'.entityTypes)
    && ActionsRewritten(b, schema.actions, schema'.actions)
  }

  lemma BindSchemaOutcome(attributes: seq<SchemaType>, schema: Namespace, u: Unstructured) returns (p: Picks)
    requires BindSchema(attributes, schema, u).Ok?
    ensures BindsAs(NO_BINDS, Places(attributes, schema), p, u,
                    BindSchema(attributes, schema, u).value.0, BindSchema(attributes, schema, u).value.1)
  {
    var tags := TagTypes(schema.entityTypes);
    p := BindAllOutcome(NO_BINDS, attributes, u);
    var (b1, u1) := BindAll(NO_BINDS, attributes, u).value;
    var q := BindAllOutcome(b1, tags, u1);
    var (b2, rest) := BindAll(b1, tags, u1).value;
    BindsInTurn(NO_BINDS, AllSubterms(attributes), p, u, b1, u1, AllSubterms(tags), q, b2, rest);
    AllSubtermsConcat(attributes, tags);
    p := p + q;
  }

  lemma BindableFree(attributes: seq<SchemaType>, schema: Namespace)
    requires ReferenceFree(attributes, schema)
    ensures forall ty <- Bindable(attributes, schema) :: NoReference(ty)
  {
    TagsArePositions(schema.entityTypes);
    assert forall ty <- EntityPositions(schema.entityTypes) :: ty in Positions(schema);
  }

  lemma BothFromPicks(b: Binds, tys: seq<SchemaType>, tys': seq<SchemaType>, p: Picks, rest: Unstructured)
    requires |p| == |AllSubterms(tys) + AllSubterms(tys')|
    requires (forall ty <- tys :: NoReference(ty)) && (forall ty <- tys' :: NoReference(ty))
    ensures var run := BindAll(b, tys, PickChoices(p) + rest);
            && run.Ok?
            && BindAll(run.value.0, tys', run.value.1)
            == Ok((BindPicks(b, AllSubterms(tys) + AllSubterms(tys'), p), rest))
  {
    var s, t := AllSubterms(tys), AllSubterms(tys');
    assert p == p[..|s|] + p[|s|..];
    PicksConcat(b, s, t, p[..|s|], p[|s|..]);
    assert PickChoices(p) + rest == PickChoices(p[..|s|]) + (PickChoices(p[|s|..]) + rest);
    AllFromPicks(b, tys, p[..|s|], PickChoices(p[|s|..]) + rest);
    AllFromPicks(BindPicks(b, s, p[..|s|]), tys', p[|s|..], rest);
  }

  lemma BindSchemaFromPicks(attributes: seq<SchemaType>, schema: Namespace, p: Picks, rest: Unstructured)
    requires |p| == |Places(attributes, schema)| && ReferenceFree(attributes, schema)
    ensures BindSchema(attributes, schema, PickChoices(p) + rest)
         == Ok((BindPicks(NO_BINDS, Places(attributes, schema), p), rest))
  {
    var tags := TagTypes(schema.entityTypes);
    AllSubtermsConcat(attributes, tags);
    BindableFree(attributes, schema);
    assert forall ty <- tags :: ty in Bindable(attributes, schema);
    BothFromPicks(NO_BINDS, attributes, tags, p, rest);
  }

  /** What a run ends with */
  lemma RunOutcome(attributes: seq<SchemaType>, schema: Namespace, order: KeyOrder, u: Unstructured) returns (p: Picks)
    requires IsOrder(order) && AddCommonTypes(attributes, schema, order, u).Ok?
    ensures ReferenceFree(attributes, schema) && |p| == |Places(attributes, schema)|
    ensures BindSchema(attributes, schema, u).value.0 == BindPicks(NO_BINDS, Places(attributes, schema), p)
    ensures IsOutcome(BindSchema(attributes, schema, u).value.0, schema,
                      AddCommonTypes(attributes, schema, order, u).value.0)
  {
    SuccessIsFree(attributes, schema, order, u);
    NamesSuffice(attributes, schema);
    p := BindSchemaOutcome(attributes, schema, u);
    var b, _, u2 := RunBindings(attributes, schema, order, u, EitherNames(attributes, schema));
    var schema' := AddCommonTypes(attributes, schema, order, u).value.0;
    DefinitionsOutcome(b, schema'.commonTypes);
    EntitiesOutcome(b, schema.entityTypes, u2);
    ActionsOutcome(b, schema.actions, RewriteEntities(b, schema.entityTypes, u2).value.1);
  }

  lemma {:induction false} NotesDrawn(n: nat) returns (u: Unstructured)
    ensures SkipNotes(n, u) == Ok([])
  {
    u := [];
    if n > 0 {
      var u1 := NotesDrawn(n - 1);
      u := [Notes(map[])] + u1;
      assert u[1..] == u1;
    }
  }

  /** A run with the picked bindings that ends with the given schema */
  lemma RunTo(attributes: seq<SchemaType>, schema: Namespace, order: KeyOrder, p: Picks, schema': Namespace)
    returns (u: Unstructured)
    requires IsOrder(order) && ReferenceFree(attributes, schema) && |p| == |Places(attributes, schema)|
    requires IsOutcome(BindPicks(NO_BINDS, Places(attributes, schema), p), schema, schema')
    ensures AddCommonTypes(attributes, schema, order, u) == Ok((schema', []))
    ensures BindSchema(attributes, schema, u).value.0 == BindPicks(NO_BINDS, Places(attributes, schema), p)
  {
    var b, defs := BindPicks(NO_BINDS, Places(attributes, schema), p), schema'.commonTypes;
    var keys := order(b.bindings.Keys);
    var u5 := NotesDrawn(|defs|);
    var u4 := ActionsTo(b, schema.actions, schema'.actions, u5);
    var u3 := EntitiesTo(b, schema.entityTypes, schema'.entityTypes, u4);
    var u2 := DefineTo(b, defs, keys, map[], u3);
    u := PickChoices(p) + u2;
    BindSchemaFromPicks(attributes, schema, p, u2);
    NamesSuffice(attributes, schema);
    SchemaBindsSound(attributes, schema, u, EitherNames(attributes, schema));
    CommonTypesComplete(b, order, u2);
    SamePart(ToCommonTypes(b, keys, map[], u2).value.0, defs);
  }

  lemma SamePart(done: Definitions, defs: Definitions)
    requires PartOf(done, defs) && done.Keys == defs.Keys
    ensures done == defs
  {
  }

  ghost predicate CanEndWith(attributes: seq<SchemaType>, schema: Namespace, schema': Namespace) {
    exists p: Picks | |p| == |Places(attributes, schema)| ::
      IsOutcome(BindPicks(NO_BINDS, Places(attributes, schema), p), schema, schema')
  }

  /** Exactly which schemas a run can end with: any selection of places is bound, each to any id; every
      id is defined along its chain; and every bound type, outermost first, is replaced by any of its
      ids, in definitions except at the top. */
  lemma OutcomesIff(attributes: seq<SchemaType>, schema: Namespace, order: KeyOrder, schema': Namespace)
    requires IsOrder(order)
    ensures (exists u :: AddCommonTypes(attributes, schema, order, u).Ok?
                         && AddCommonTypes(attributes, schema, order, u).value.0 == schema')
       <==> ReferenceFree(attributes, schema) && CanEndWith(attributes, schema, schema')
  {
    if u :| AddCommonTypes(attributes, schema, order, u).Ok?
            && AddCommonTypes(attributes, schema, order, u).value.0 == schema'
    {
      var p := RunOutcome(attributes, schema, order, u);
    }
    if ReferenceFree(attributes, schema) && CanEndWith(attributes, schema, schema') {
      var p: Picks :| |p| == |Places(attributes, schema)|
        && IsOutcome(BindPicks(NO_BINDS, Places(attributes, schema), p), schema, schema');
      var u := RunTo(attributes, schema, order, p, schema');
      assert AddCommonTypes(attributes, schema, order, u).Ok?;
    }
  }

  // ----- no bound type is left -----

  lemma {:induction false} FreeUnchanged(b: Binds, ty: SchemaType, ty': SchemaType)
    requires NoReference(ty') && (Rewritten(b, ty, ty') || BodyOf(b, ty, ty'))
    ensures ty' == ty
    decreases ty
  {
    match ty
    case Set(element) => FreeUnchanged(b, element, ty'.element);
    case Record(attributes, _) => FreeAttributesUnchanged(b, attributes, ty'.attributes);
    case _ =>
  }

  lemma {:induction false} FreeAttributesUnchanged(b: Binds, attributes: seq<Attribute>, rewritten: seq<Attribute>)
    requires (forall a <- rewritten :: NoReference(a.ty)) && AttributesRewritten(b, attributes, rewritten)
    ensures rewritten == attributes
    decreases attributes
  {
    if attributes != [] {
      assert rewritten[0] in rewritten;
      FreeUnchanged(b, attributes[0].ty, rewritten[0].ty);
      FreeAttributesUnchanged(b, attributes[1..], rewritten[1..]);
      assert attributes[0].(ty := attributes[0].ty) == attributes[0];
      assert rewritten == [rewritten[0]] + rewritten[1..] && attributes == [attributes[0]] + attributes[1..];
    }
  }

  /** No bound type strictly inside */
  ghost predicate NoneInside(ty: SchemaType, t: SchemaType) {
    t !in Subterms(ty)[1..]
  }

  lemma TopOrInside(ty: SchemaType, t: SchemaType)
    ensures t in Subterms(ty) <==> t == ty || !NoneInside(ty, t)
  {
    assert Subterms(ty) == [ty] + Subterms(ty)[1..];
  }

  lemma {:induction false} NoneLeft(b: Binds, ty: SchemaType, ty': SchemaType, t: SchemaType)
    requires BoundFree(b) && t in b.bindings && Rewritten(b, ty, ty')
    ensures t !in Subterms(ty')
    decreases ty, 1
  {
    assert NoReference(t);
    TopOrInside(ty', t);
    if ty !in b.bindings {
      NoneLeftInside(b, ty, ty', t);
      if t == ty' { FreeUnchanged(b, ty, ty'); }
    }
  }

  lemma {:induction false} NoneLeftInside(b: Binds, ty: SchemaType, ty': SchemaType, t: SchemaType)
    requires BoundFree(b) && t in b.bindings && BodyOf(b, ty, ty')
    ensures NoneInside(ty', t)
    decreases ty, 0
  {
    match ty
    case Set(element) =>
      NoneLeft(b, element, ty'.element, t);
      assert Subterms(ty')[1..] == Subterms(ty'.element);
    case Record(attributes, _) =>
      NoneLeftInAttributes(b, attributes, ty'.attributes, t);
      assert Subterms(ty')[1..] == AttributeSubterms(ty'.attributes);
    case CommonTypeRef(_) =>
    case _ =>
      assert Subterms(ty')[1..] == [];
  }

  lemma {:induction false} NoneLeftInAttributes(
      b: Binds, attributes: seq<Attribute>, rewritten: seq<Attribute>, t: SchemaType)
    requires BoundFree(b) && t in b.bindings && AttributesRewritten(b, attributes, rewritten)
    ensures t !in AttributeSubterms(rewritten)
    decreases attributes
  {
    if attributes != [] {
      NoneLeft(b, attributes[0].ty, rewritten[0].ty, t);
      NoneLeftInAttributes(b, attributes[1..], rewritten[1..], t);
    }
  }

  lemma {:induction false} NoneLeftInEntities(
      b: Binds, es: seq<(string, EntityDecl)>, es': seq<(string, EntityDecl)>, t: SchemaType)
    requires BoundFree(b) && t in b.bindings && EntitiesRewritten(b, es, es')
    ensures forall ty <- EntityPositions(es') :: t !in Subterms(ty)
  {
    if es != [] {
      var e, e' := es[0].1, es'[0].1;
      if e.Standard? {
        NoneLeft(b, e.shape, e'.shape, t);
        if e.tags.Some? { NoneLeft(b, e.tags.value, e'.tags.value, t); }
      }
      NoneLeftInEntities(b, es[1..], es'[1..], t);
    }
  }

  lemma {:induction false} NoneLeftInActions(
      b: Binds, acts: seq<(string, ActionDecl)>, acts': seq<(string, ActionDecl)>, t: SchemaType)
    requires BoundFree(b) && t in b.bindings && ActionsRewritten(b, acts, acts')
    ensures forall ty <- ActionPositions(acts') :: t !in Subterms(ty)
  {
    if acts != [] {
      var a, a' := acts[0].1, acts'[0].1;
      if a.appliesTo.Some? { NoneLeft(b, a.appliesTo.value.context, a'.appliesTo.value.context, t); }
      NoneLeftInActions(b, acts[1..], acts'[1..], t);
    }
  }

  /** A definition is a reference or a rewritten type, and has no bound type inside. */
  lemma DefinitionHasNoneLeft(b: Binds, defs: Definitions, s: SchemaType, i: nat, t: SchemaType)
    requires BoundFree(b) && s in b.bindings && ChainOf(b, defs, s) && i < |b.bindings[s]| && t in b.bindings
    ensures NoneInside(defs[b.bindings[s][i]], t)
  {
    var id := b.bindings[s][i];
    if i == |b.bindings[s]| - 1 {
      NoneLeftInside(b, s, defs[id], t);
    } else {
      assert defs[id] == CommonTypeRef(Name([], b.bindings[s][i + 1]));
      assert Subterms(defs[id]) == [defs[id]];
    }
  }

  lemma DefinitionsHaveNoneLeft(b: Binds, defs: Definitions, t: SchemaType)
    requires Valid(b) && BoundFree(b) && DefinitionsOf(b, defs) && t in b.bindings
    ensures forall id | id in defs :: NoneInside(defs[id], t)
  {
    forall id | id in defs
      ensures NoneInside(defs[id], t)
    {
      assert Names(b, id);
      var s, i :| s in b.bindings && 0 <= i < |b.bindings[s]| && b.bindings[s][i] == id;
      DefinitionHasNoneLeft(b, defs, s, i, t);
    }
  }

  lemma BoundByRun(attributes: seq<SchemaType>, schema: Namespace, u: Unstructured)
    requires ReferenceFree(attributes, schema) && BindSchema(attributes, schema, u).Ok?
    ensures Valid(BindSchema(attributes, schema, u).value.0) && BoundFree(BindSchema(attributes, schema, u).value.0)
  {
    BindSchemaNeverPanics(attributes, schema, u);
    NamesSuffice(attributes, schema);
    SchemaBindsSound(attributes, schema, u, EitherNames(attributes, schema));
  }

  lemma OutcomeHasNoneLeft(b: Binds, schema: Namespace, schema': Namespace, t: SchemaType)
    requires Valid(b) && BoundFree(b) && IsOutcome(b, schema, schema') && t in b.bindings
    ensures forall ty <- Positions(schema') :: t !in Subterms(ty)
    ensures forall id | id in schema'.commonTypes :: NoneInside(schema'.commonTypes[id], t)
  {
    NoneLeftInEntities(b, schema.entityTypes, schema'.entityTypes, t);
    NoneLeftInActions(b, schema.actions, schema'.actions, t);
    DefinitionsHaveNoneLeft(b, schema'.commonTypes, t);
  }

  /** After a run, no bound type occurs in any shape, tag type or context, nor strictly inside any
      definition: wherever it did there is a reference. */
  lemma NoBoundTypeLeft(
      attributes: seq<SchemaType>, schema: Namespace, order: KeyOrder, u: Unstructured, t: SchemaType)
    requires IsOrder(order) && AddCommonTypes(attributes, schema, order, u).Ok?
    requires t in BindSchema(attributes, schema, u).value.0.bindings
    ensures var schema' := AddCommonTypes(attributes, schema, order, u).value.0;
            && (forall ty <- Positions(schema') :: t !in Subterms(ty))
            && (forall id | id in schema'.commonTypes :: NoneInside(schema'.commonTypes[id], t))
  {
    var _ := RunOutcome(attributes, schema, order, u);
    BoundByRun(attributes, schema, u);
    OutcomeHasNoneLeft(BindSchema(attributes, schema, u).value.0, schema,
                       AddCommonTypes(attributes, schema, order, u).value.0, t);
  }

  // ----- every id of a bound type at a position is chosen by some run -----

  lemma {:induction false} EntitiesReferring(
      b: Binds, es: seq<(string, EntityDecl)>, es': seq<(string, EntityDecl)>, p: nat, id: string)
    returns (es'': seq<(string, EntityDecl)>)
    requires EntitiesRewritten(b, es, es') && p < |EntityPositions(es)|
    requires EntityPositions(es)[p] in b.bindings && id in b.bindings[EntityPositions(es)[p]]
    ensures EntitiesRewritten(b, es, es'') && |EntityPositions(es'')| == |EntityPositions(es)|
    ensures EntityPositions(es'')[p] == CommonTypeRef(Name([], id))
  {
    var e, e' := es[0].1, es'[0].1;
    var ref := CommonTypeRef(Name([], id));
    var n := |DeclPositions(e)|;
    SamePositions(b, es[1..], es'[1..]);
    if p < n {
      var e'' := if p == 0 then e'.(shape := ref) else e'.(tags := Some(ref));
      es'' := [(es'[0].0, e'')] + es'[1..];
      assert DeclPositions(e'')[p] == ref && |DeclPositions(e'')| == n;
    } else {
      var rest := EntitiesReferring(b, es[1..], es'[1..], p - n, id);
      es'' := [es'[0]] + rest;
      assert |DeclPositions(e')| == n;
    }
    assert es''[1..] == if p < n then es'[1..] else es''[1..];
  }

  lemma {:induction false} SamePositions(b: Binds, es: seq<(string, EntityDecl)>, es': seq<(string, EntityDecl)>)
    requires EntitiesRewritten(b, es, es')
    ensures |EntityPositions(es')| == |EntityPositions(es)|
  {
    if es != [] { SamePositions(b, es[1..], es'[1..]); }
  }

  lemma {:induction false} ActionsReferring(
      b: Binds, acts: seq<(string, ActionDecl)>, acts': seq<(string, ActionDecl)>, p: nat, id: string)
    returns (acts'': seq<(string, ActionDecl)>)
    requires ActionsRewritten(b, acts, acts') && p < |ActionPositions(acts)|
    requires ActionPositions(acts)[p] in b.bindings && id in b.bindings[ActionPositions(acts)[p]]
    ensures ActionsRewritten(b, acts, acts'') && p < |ActionPositions(acts'')|
    ensures ActionPositions(acts'')[p] == CommonTypeRef(Name([], id))
  {
    var a, a' := acts[0].1, acts'[0].1;
    var ref := CommonTypeRef(Name([], id));
    var n := |ContextPositions(a)|;
    if p < n {
      var a'' := a'.(appliesTo := Some(a'.appliesTo.value.(context := ref)));
      acts'' := [(acts'[0].0, a'')] + acts'[1..];
      assert acts''[1..] == acts'[1..] && ContextPositions(a'') == [ref];
    } else {
      var rest := ActionsReferring(b, acts[1..], acts'[1..], p - n, id);
      acts'' := [acts'[0]] + rest;
      assert acts''[1..] == rest && |ContextPositions(a')| == n;
    }
  }

  /** For every run, bound type at a position and id of that type, some run with the same bindings puts
      a reference to that id there. */
  lemma ReferenceReached(
      attributes: seq<SchemaType>, schema: Namespace, order: KeyOrder, u: Unstructured, p: nat, id: string)
    returns (u': Unstructured)
    requires IsOrder(order) && AddCommonTypes(attributes, schema, order, u).Ok? && p < |Positions(schema)|
    requires var b := BindSchema(attributes, schema, u).value.0;
             Positions(schema)[p] in b.bindings && id in b.bindings[Positions(schema)[p]]
    ensures AddCommonTypes(attributes, schema, order, u').Ok?
    ensures BindSchema(attributes, schema, u').value.0 == BindSchema(attributes, schema, u).value.0
    ensures var schema' := AddCommonTypes(attributes, schema, order, u').value.0;
            p < |Positions(schema')| && Positions(schema')[p] == CommonTypeRef(Name([], id))
  {
    var picks := RunOutcome(attributes, schema, order, u);
    var b, schema' := BindSchema(attributes, schema, u).value.0, AddCommonTypes(attributes, schema, order, u).value.0;
    var n := |EntityPositions(schema.entityTypes)|;
    SamePositions(b, schema.entityTypes, schema'.entityTypes);
    var target := schema';
    if p < n {
      var es := EntitiesReferring(b, schema.entityTypes, schema'.entityTypes, p, id);
      target := schema'.(entityTypes := es);
    } else {
      var acts := ActionsReferring(b, schema.actions, schema'.actions, p - n, id);
      target := schema'.(actions := acts);
    }
    u' := RunTo(attributes, schema, order, picks, target);
  }
}

/** Captured names: exactly when every run of common-type introduction keeps a schema. */
module CommonTypesCapture {
  import opened Wrappers
  import opened Choices
  import opened SchemaTypes
  import opened CommonTypes
  import opened CommonTypesProofs
  import opened CommonTypesTheorems
  import opened CommonTypesRuns
  import opened CommonTypesReferences
  import opened CommonTypesNames

  // ----- a type that mentions a name that is no longer that entity type -----

  /** The name never resolves to the entity type it stands for. */
  ghost predicate NameBroken(defs: Definitions, namespace: Option<Name>, n: Name) {
    forall fuel: nat ::
      Resolve(defs, namespace, EntityOrCommon(n), fuel) != Done(EntityType(Qualify(n, namespace)))
  }

  /** No reference to a bound type that mentions the name resolves. */
  ghost predicate BoundBroken(b: Binds, defs: Definitions, namespace: Option<Name>, n: Name) {
    forall t, i, fuel: nat | t in b.bindings && 0 <= i < |b.bindings[t]| && Mentions(t, n) ::
      !Resolve(defs, namespace, CommonTypeRef(Name([], b.bindings[t][i])), fuel).Done?
  }

  lemma {:induction false} OccurrenceBroken(
      b: Binds, defs: Definitions, namespace: Option<Name>, ty: SchemaType, n: Name, u: Unstructured, fuel: nat)
    requires NameBroken(defs, namespace, n) && BoundBroken(b, defs, namespace, n)
    requires Mentions(ty, n) && Meaning(namespace, ty).Done? && RewriteType(b, ty, u).Ok?
    ensures Resolve(defs, namespace, RewriteType(b, ty, u).value.0, fuel) != Meaning(namespace, ty)
    decreases ty
  {
    if ty !in b.bindings {
      match ty
      case Set(element) => OccurrenceBroken(b, defs, namespace, element, n, u, fuel);
      case Record(attributes, _) =>
        var j :| 0 <= j < |attributes| && Mentions(attributes[j].ty, n);
        var rewritten := RewriteAttributes(b, attributes, u).value.0;
        var uj := RewriteAttributesAt(b, attributes, u, j);
        AttributeDone(namespace, attributes, j);
        OccurrenceBroken(b, defs, namespace, attributes[j].ty, n, uj, fuel);
        AttributeDiffers(defs, namespace, attributes, rewritten, j, fuel);
      case _ =>
    }
  }

  lemma {:induction false} RewriteAttributesAt(b: Binds, attributes: seq<Attribute>, u: Unstructured, j: nat)
    returns (uj: Unstructured)
    requires RewriteAttributes(b, attributes, u).Ok? && j < |attributes|
    ensures RewriteType(b, attributes[j].ty, uj).Ok?
    ensures var rewritten := RewriteAttributes(b, attributes, u).value.0;
            |rewritten| == |attributes| && rewritten[j].ty == RewriteType(b, attributes[j].ty, uj).value.0
    decreases j
  {
    RewriteAttributesLength(b, attributes, u);
    uj := u;
    if j > 0 {
      uj := RewriteAttributesAt(b, attributes[1..], RewriteType(b, attributes[0].ty, u).value.1, j - 1);
    }
  }

  lemma {:induction false} RewriteAttributesLength(b: Binds, attributes: seq<Attribute>, u: Unstructured)
    ensures RewriteAttributes(b, attributes, u).Ok?
            ==> |RewriteAttributes(b, attributes, u).value.0| == |attributes|
    decreases attributes
  {
    if attributes != [] && RewriteType(b, attributes[0].ty, u).Ok? {
      RewriteAttributesLength(b, attributes[1..], RewriteType(b, attributes[0].ty, u).value.1);
    }
  }

  lemma {:induction false} AttributeDone(namespace: Option<Name>, attributes: seq<Attribute>, j: nat)
    requires ResolveAttributes(map[], namespace, attributes, 0).Done? && j < |attributes|
    ensures Meaning(namespace, attributes[j].ty).Done?
    decreases j
  {
    if j > 0 { AttributeDone(namespace, attributes[1..], j - 1); }
  }

  lemma {:induction false} AttributeDiffers(
      defs: Definitions, namespace: Option<Name>, attributes: seq<Attribute>, others: seq<Attribute>, j: nat, fuel: nat)
    requires j < |attributes| == |others| && ResolveAttributes(map[], namespace, attributes, 0).Done?
    requires Resolve(defs, namespace, others[j].ty, fuel) != Meaning(namespace, attributes[j].ty)
    ensures ResolveAttributes(defs, namespace, others, fuel) != ResolveAttributes(map[], namespace, attributes, 0)
    decreases j
  {
    var left := ResolveAttributes(defs, namespace, others, fuel);
    var right := ResolveAttributes(map[], namespace, attributes, 0);
    if left == right {
      assert left.value[0] == right.value[0] && left.value[1..] == right.value[1..];
      if j > 0 { AttributeDiffers(defs, namespace, attributes[1..], others[1..], j - 1, fuel); }
      assert false;
    }
  }

  // ----- a definition that captures a name -----

  lemma {:induction false} MentionedBase(ty: SchemaType, n: Name, either: set<string>)
    requires Mentions(ty, n) && Within(ty, either)
    ensures n.base in either
  {
    match ty
    case Set(element) => MentionedBase(element, n, either);
    case Record(attributes, _) =>
      var a :| a in attributes && Mentions(a.ty, n);
      MentionedBase(a.ty, n, either);
    case _ =>
  }

  /** A definition in which its own id occurs never resolves, nor does any type with that name. */
  lemma {:induction false} CapturedNeverDone(
      defs: Definitions, namespace: Option<Name>, ty: SchemaType, either: set<string>, id: string, fuel: nat)
    requires Within(ty, either) && !Within(ty, either - {id})
    requires id in defs && Within(defs[id], either) && !Within(defs[id], either - {id})
    ensures !Resolve(defs, namespace, ty, fuel).Done?
    decreases fuel, ty
  {
    match ty
    case EntityOrCommon(name) =>
      if fuel > 0 { CapturedNeverDone(defs, namespace, defs[id], either, id, fuel - 1); }
    case Set(element) => CapturedNeverDone(defs, namespace, element, either, id, fuel);
    case Record(attributes, _) =>
      var j :| 0 <= j < |attributes| && !Within(attributes[j].ty, either - {id});
      assert attributes[j] in attributes;
      CapturedNeverDone(defs, namespace, attributes[j].ty, either, id, fuel);
      AttributeNotDone(defs, namespace, attributes, j, fuel);
    case _ =>
  }

  lemma {:induction false} AttributeNotDone(
      defs: Definitions, namespace: Option<Name>, attributes: seq<Attribute>, j: nat, fuel: nat)
    requires j < |attributes| && !Resolve(defs, namespace, attributes[j].ty, fuel).Done?
    ensures !ResolveAttributes(defs, namespace, attributes, fuel).Done?
    decreases attributes
  {
    if j > 0 {
      AttributeNotDone(defs, namespace, attributes[1..], j - 1, fuel);
    }
  }

  /** Bound to the base of a name, any type but the entity type it stands for breaks the name. */
  lemma CaptureBreaks(ty: SchemaType, n: Name, namespace: Option<Name>, either: set<string>)
    requires Within(ty, either) && !SameEntity(ty, n, namespace)
    ensures NameBroken(map[n.base := ty], namespace, n)
    ensures BoundBroken(Only(ty, n.base), map[n.base := ty], namespace, n)
  {
    var defs, b := map[n.base := ty], Only(ty, n.base);
    forall fuel: nat
      ensures Resolve(defs, namespace, EntityOrCommon(n), fuel) != Done(EntityType(Qualify(n, namespace)))
    {
      if fuel > 0 { CapturedMeaning(ty, n, namespace, either, fuel - 1); }
    }
    forall t, i, fuel: nat | t in b.bindings && 0 <= i < |b.bindings[t]| && Mentions(t, n)
      ensures !Resolve(defs, namespace, CommonTypeRef(Name([], b.bindings[t][i])), fuel).Done?
    {
      if Within(ty, either - {n.base}) { MentionedBase(ty, n, either - {n.base}); }
      if fuel > 0 { CapturedNeverDone(defs, namespace, ty, either, n.base, fuel - 1); }
    }
  }

  lemma CapturedMeaning(ty: SchemaType, n: Name, namespace: Option<Name>, either: set<string>, fuel: nat)
    requires Within(ty, either) && !SameEntity(ty, n, namespace)
    ensures Resolve(map[n.base := ty], namespace, ty, fuel) != Done(EntityType(Qualify(n, namespace)))
  {
    var defs := map[n.base := ty];
    if Within(ty, either - {n.base}) {
      PlainMeaning(defs, namespace, ty, either - {n.base}, fuel);
    } else {
      CapturedNeverDone(defs, namespace, ty, either, n.base, fuel);
    }
  }

  // ----- such a run does not keep the schema -----

  ghost predicate TypeBroken(b: Binds, orig: Definitions, defs: Definitions, namespace: Option<Name>, ty: SchemaType) {
    forall u | RewriteType(b, ty, u).Ok? :: !SameMeaning(orig, ty, defs, RewriteType(b, ty, u).value.0, namespace)
  }

  lemma {:induction false} EntityBroken(
      b: Binds, orig: Definitions, defs: Definitions, namespace: Option<Name>,
      es: seq<(string, EntityDecl)>, u: Unstructured, ty: SchemaType) returns (i: nat)
    requires ty in EntityPositions(es) && TypeBroken(b, orig, defs, namespace, ty) && RewriteEntities(b, es, u).Ok?
    ensures var es' := RewriteEntities(b, es, u).value.0;
            i < |es| && (i < |es'| ==> !EntityKept(orig, es[i].1, defs, es'[i].1, namespace))
  {
    if ty in DeclPositions(es[0].1) {
      i := 0;
      var e := es[0].1;
      var (shape, u1) := RewriteType(b, e.shape, u).value;
      assert ty == e.shape || (e.tags == Some(ty) && RewriteType(b, ty, u1).Ok?);
    } else {
      i := EntityBroken(b, orig, defs, namespace, es[1..], RewriteEntity(b, es[0].1, u).value.1, ty);
      i := i + 1;
    }
  }

  lemma {:induction false} ActionBroken(
      b: Binds, orig: Definitions, defs: Definitions, namespace: Option<Name>,
      acts: seq<(string, ActionDecl)>, u: Unstructured, ty: SchemaType) returns (i: nat)
    requires ty in ActionPositions(acts) && TypeBroken(b, orig, defs, namespace, ty) && RewriteActions(b, acts, u).Ok?
    ensures var acts' := RewriteActions(b, acts, u).value.0;
            i < |acts| && (i < |acts'| ==> !ActionKept(orig, acts[i].1, defs, acts'[i].1, namespace))
  {
    if ty in ContextPositions(acts[0].1) {
      i := 0;
      assert RewriteType(b, ty, u).Ok?;
    } else {
      i := ActionBroken(b, orig, defs, namespace, acts[1..], RewriteAction(b, acts[0].1, u).value.1, ty);
      i := i + 1;
    }
  }

  lemma SchemaBroken(
      b: Binds, schema: Namespace, schema': Namespace, u: Unstructured, namespace: Option<Name>, ty: SchemaType)
    requires RewrittenFrom(b, schema, schema', u) && ty in Positions(schema)
    requires TypeBroken(b, schema.commonTypes, schema'.commonTypes, namespace, ty)
    ensures !Kept(schema, schema', namespace)
  {
    var orig, defs := schema.commonTypes, schema'.commonTypes;
    if ty in EntityPositions(schema.entityTypes) {
      var _ := EntityBroken(b, orig, defs, namespace, schema.entityTypes, u, ty);
    } else {
      var u1 := RewriteEntities(b, schema.entityTypes, u).value.1;
      var _ := ActionBroken(b, orig, defs, namespace, schema.actions, u1, ty);
    }
  }

  // ----- the theorem -----

  /** The old definitions are dropped: a name that they gave another meaning changes. */
  lemma UnboundBreaks(
      schema: Namespace, schema': Namespace, u2: Unstructured, namespace: Option<Name>, either: set<string>,
      n: Name, ty: SchemaType)
    requires RewrittenFrom(NO_BINDS, schema, schema', u2) && schema'.commonTypes == map[]
    requires ty in Positions(schema) && Within(ty, either) && Meaning(namespace, ty).Done?
    requires Mentions(ty, n) && !EntityName(schema.commonTypes, namespace, n)
    ensures !Kept(schema, schema', namespace)
  {
    var orig := schema.commonTypes;
    forall u | RewriteType(NO_BINDS, ty, u).Ok?
      ensures !SameMeaning(orig, ty, map[], RewriteType(NO_BINDS, ty, u).value.0, namespace)
    {
      RewriteNothing(ty, u, either);
      assert NameBroken(orig, namespace, n);
      forall fuel: nat
        ensures Resolve(orig, namespace, ty, fuel) != Meaning(namespace, ty)
      {
        OccurrenceBroken(NO_BINDS, orig, namespace, ty, n, u, fuel);
      }
      assert ResolvesTo(map[], namespace, ty, Meaning(namespace, ty));
    }
    SchemaBroken(NO_BINDS, schema, schema', u2, namespace, ty);
  }

  /** A new definition captures the name. */
  lemma CapturedBreaks(
      schema: Namespace, schema': Namespace, u2: Unstructured, namespace: Option<Name>, either: set<string>,
      n: Name, ty: SchemaType, bound: SchemaType)
    requires RewrittenFrom(Only(bound, n.base), schema, schema', u2) && schema'.commonTypes == map[n.base := bound]
    requires ty in Positions(schema) && Within(ty, either) && Meaning(namespace, ty).Done? && Mentions(ty, n)
    requires forall m | Mentions(ty, m) :: EntityName(schema.commonTypes, namespace, m)
    requires Within(bound, either) && !SameEntity(bound, n, namespace)
    ensures !Kept(schema, schema', namespace)
  {
    var b, orig, defs := Only(bound, n.base), schema.commonTypes, map[n.base := bound];
    CaptureBreaks(bound, n, namespace, either);
    var before := NamesResolve(orig, namespace, ty, either);
    assert ResolvesTo(orig, namespace, ty, Meaning(namespace, ty));
    forall u | RewriteType(b, ty, u).Ok?
      ensures !SameMeaning(orig, ty, defs, RewriteType(b, ty, u).value.0, namespace)
    {
      forall fuel: nat
        ensures Resolve(defs, namespace, RewriteType(b, ty, u).value.0, fuel) != Meaning(namespace, ty)
      {
        OccurrenceBroken(b, defs, namespace, ty, n, u, fuel);
      }
    }
    SchemaBroken(b, schema, schema', u2, namespace, ty);
  }

  /** A run after which some shape, tag type or context means something else, drawing no texts but
      possible ids */
  lemma CapturingRun(
      attributes: seq<SchemaType>, schema: Namespace, order: KeyOrder, namespace: Option<Name>, either: set<string>,
      ids: iset<string>)
    returns (u: Unstructured)
    requires IsOrder(order) && TypesWithin(attributes, either) && SchemaWithin(schema, either)
    requires Denotes(schema, namespace) && forall n | SchemaMentions(schema, n) :: n.base in ids
    requires !Uncapturable(attributes, schema, namespace)
    ensures TextsIn(u, ids) && AddCommonTypes(attributes, schema, order, u).Ok?
    ensures !Kept(schema, AddCommonTypes(attributes, schema, order, u).value.0, namespace)
  {
    var tys := Bindable(attributes, schema);
    TagTypesWithin(schema, either);
    var u2;
    var n :| SchemaMentions(schema, n) && !NameSafe(attributes, schema, namespace, n);
    if n :| SchemaMentions(schema, n) && !EntityName(schema.commonTypes, namespace, n) {
      var ty :| ty in Positions(schema) && Mentions(ty, n);
      u, u2 := PickedRun(attributes, schema, order, either, ids, |tys|, n.base);
      var schema' := AddCommonTypes(attributes, schema, order, u).value.0;
      UnboundBreaks(schema, schema', u2, namespace, either, n, ty);
    } else {
      var p :| 0 <= p < |tys| && !SameEntity(tys[p], n, namespace);
      var ty :| ty in Positions(schema) && Mentions(ty, n);
      u, u2 := PickedRun(attributes, schema, order, either, ids, p, n.base);
      var schema' := AddCommonTypes(attributes, schema, order, u).value.0;
      assert forall m | Mentions(ty, m) :: SchemaMentions(schema, m);
      CapturedBreaks(schema, schema', u2, namespace, either, n, ty, tys[p]);
    }
  }

  /** Exactly when every run keeps the meaning of a schema, for any attribute list and any old
      definitions: when each entity-or-common name is an entity type under the old definitions, and
      every type at which binding starts is that entity type, named as such.  In particular nothing can
      go wrong where there is no such name, or nothing to bind.  Where there is a common-type reference,
      no run succeeds. */
  lemma AlwaysKeptIff(
      attributes: seq<SchemaType>, schema: Namespace, order: KeyOrder, namespace: Option<Name>, ids: iset<string>)
    requires IsOrder(order)
    requires Denotes(schema, namespace) && forall n | SchemaMentions(schema, n) :: n.base in ids
    ensures (forall u | TextsIn(u, ids) && AddCommonTypes(attributes, schema, order, u).Ok? ::
               Kept(schema, AddCommonTypes(attributes, schema, order, u).value.0, namespace))
       <==> (ReferenceFree(attributes, schema) ==> Uncapturable(attributes, schema, namespace))
  {
    var either := EitherNames(attributes, schema);
    if ReferenceFree(attributes, schema) { NamesSuffice(attributes, schema); }
    if ReferenceFree(attributes, schema) && !Uncapturable(attributes, schema, namespace) {
      var _ := CapturingRun(attributes, schema, order, namespace, either, ids);
    } else {
      forall u | AddCommonTypes(attributes, schema, order, u).Ok?
        ensures Kept(schema, AddCommonTypes(attributes, schema, order, u).value.0, namespace)
      {
        SuccessIsFree(attributes, schema, order, u);
        if n :| SchemaMentions(schema, n) {
          MentionedKept(attributes, schema, order, u, namespace, either, n);
        } else {
          UnmentionedKept(attributes, schema, order, u, namespace, either);
        }
      }
    }
  }
}

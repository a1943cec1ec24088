/** The ids of common-type introduction: exactly when every id of every run expands to the type it was
    bound to, and what happens otherwise. */
module CommonTypesIds {
  import opened Wrappers
  import opened Choices
  import opened SchemaTypes
  import opened CommonTypes
  import opened CommonTypesProofs
  import opened CommonTypesTheorems
  import opened CommonTypesRuns
  import opened CommonTypesReferences
  import opened CommonTypesNames
  import opened CommonTypesCapture

  /** The id is bound to one type, at one place of its list, and resolves to what that type means on
      its own. */
  ghost predicate IdExpands(b: Binds, defs: Definitions, namespace: Option<Name>, id: string) {
    exists t, i | t in b.bindings && 0 <= i < |b.bindings[t]| && b.bindings[t][i] == id ::
      && ResolvesTo(defs, namespace, CommonTypeRef(Name([], id)), Meaning(namespace, t))
      && OnlyAt(b, id, t, i)
  }

  ghost predicate OnlyAt(b: Binds, id: string, t: SchemaType, i: nat) {
    forall t', i' | t' in b.bindings && 0 <= i' < |b.bindings[t']| && b.bindings[t'][i'] == id :: t' == t && i' == i
  }

  ghost predicate AllExpand(b: Binds, defs: Definitions, namespace: Option<Name>) {
    forall id | id in defs :: IdExpands(b, defs, namespace, id)
  }

  /** After a run, every introduced id expands. */
  ghost predicate IdsExpand(
      attributes: seq<SchemaType>, schema: Namespace, order: KeyOrder, u: Unstructured, namespace: Option<Name>)
    requires IsOrder(order) && AddCommonTypes(attributes, schema, order, u).Ok?
  {
    AllExpand(BindSchema(attributes, schema, u).value.0,
              AddCommonTypes(attributes, schema, order, u).value.0.commonTypes, namespace)
  }

  ghost predicate NoneMentioned(tys: seq<SchemaType>) {
    forall ty, n | ty in tys :: !Mentions(ty, n)
  }

  // ----- every id expands where no bindable type mentions a name -----

  lemma WithinUnmentioned(tys: seq<SchemaType>)
    requires TypesWithin(tys, {})
    ensures NoneMentioned(tys)
  {
    forall ty, n | ty in tys && Mentions(ty, n)
      ensures false
    {
      MentionedBase(ty, n, {});
    }
  }

  lemma UnmentionedWithin(tys: seq<SchemaType>, either: set<string>)
    requires TypesWithin(tys, either) && NoneMentioned(tys)
    ensures TypesWithin(tys, {})
  {
    forall ty | ty in tys
      ensures Within(ty, {})
    {
      if !Within(ty, {}) { var n := SomeMention(ty, either); }
    }
  }

  lemma UnmentionedSound(attributes: seq<SchemaType>, schema: Namespace, u: Unstructured, either: set<string>)
    requires TypesWithin(attributes, either) && SchemaWithin(schema, either)
    requires NoneMentioned(Bindable(attributes, schema)) && BindSchema(attributes, schema, u).Ok?
    ensures Sound(BindSchema(attributes, schema, u).value.0, {})
  {
    var tys, tags := Bindable(attributes, schema), TagTypes(schema.entityTypes);
    TagTypesWithin(schema, either);
    UnmentionedWithin(tys, either);
    assert forall t <- attributes :: t in tys;
    assert forall t <- tags :: t in tys;
    var (b1, u1) := BindAll(NO_BINDS, attributes, u).value;
    BindAllSound(NO_BINDS, attributes, u, {});
    BindAllSound(b1, tags, u1, {});
  }

  /** Whatever names the schema has elsewhere */
  lemma UnmentionedExpand(
      attributes: seq<SchemaType>, schema: Namespace, order: KeyOrder, u: Unstructured, namespace: Option<Name>)
    requires IsOrder(order) && AddCommonTypes(attributes, schema, order, u).Ok?
    requires NoneMentioned(Bindable(attributes, schema))
    ensures IdsExpand(attributes, schema, order, u, namespace)
  {
    SuccessIsFree(attributes, schema, order, u);
    NamesSuffice(attributes, schema);
    var either := EitherNames(attributes, schema);
    var b, k, _ := RunBindings(attributes, schema, order, u, either);
    UnmentionedSound(attributes, schema, u, either);
    var defs := AddCommonTypes(attributes, schema, order, u).value.0.commonTypes;
    assert Ready(b, defs, {}, k);
    forall id | id in defs
      ensures IdExpands(b, defs, namespace, id)
    {
      var t, i := PlaceOf(b, id);
      OnlyPlace(b, t, i);
      BoundExpands(b, defs, k, namespace, t, i);
    }
  }

  lemma BoundExpands(b: Binds, defs: Definitions, k: nat, namespace: Option<Name>, t: SchemaType, i: nat)
    requires Ready(b, defs, {}, k) && t in b.bindings && Within(t, {}) && i < |b.bindings[t]|
    ensures ResolvesTo(defs, namespace, CommonTypeRef(Name([], b.bindings[t][i])), Meaning(namespace, t))
  {
    IdMeaning(b, defs, {}, k, namespace, t, i, |b.bindings[t]| - i + (Cost(t, k) - k));
    PlainMeaning(map[], namespace, t, {}, 0);
  }

  // ----- a definition that refers to itself does not resolve -----

  /** Following the id does not end. */
  ghost predicate Cyclic(defs: Definitions, namespace: Option<Name>, id: string) {
    id in defs && forall fuel: nat :: Resolve(defs, namespace, CommonTypeRef(Name([], id)), fuel) == OutOfFuel
  }

  lemma {:induction false} NeverPanics(
      ty: SchemaType, bound: SchemaType, id: string, namespace: Option<Name>, either: set<string>, fuel: nat)
    requires Within(ty, either) && Within(bound, either)
    requires Meaning(namespace, ty).Done? && Meaning(namespace, bound).Done?
    ensures Resolve(map[id := bound], namespace, ty, fuel) != Panic
    decreases fuel, ty
  {
    match ty
    case Set(element) => NeverPanics(element, bound, id, namespace, either, fuel);
    case Record(attributes, _) => NoAttributePanics(attributes, bound, id, namespace, either, fuel);
    case EntityOrCommon(n) =>
      if n.base == id && fuel > 0 { NeverPanics(bound, bound, id, namespace, either, fuel - 1); }
    case _ =>
  }

  lemma {:induction false} NoAttributePanics(
      attributes: seq<Attribute>, bound: SchemaType, id: string, namespace: Option<Name>, either: set<string>,
      fuel: nat)
    requires (forall a <- attributes :: Within(a.ty, either)) && Within(bound, either)
    requires ResolveAttributes(map[], namespace, attributes, 0).Done? && Meaning(namespace, bound).Done?
    ensures ResolveAttributes(map[id := bound], namespace, attributes, fuel) != Panic
    decreases fuel, attributes
  {
    if attributes != [] {
      NeverPanics(attributes[0].ty, bound, id, namespace, either, fuel);
      NoAttributePanics(attributes[1..], bound, id, namespace, either, fuel);
    }
  }

  lemma CaptureIsCyclic(ty: SchemaType, n: Name, namespace: Option<Name>, either: set<string>)
    requires Within(ty, either) && Mentions(ty, n) && Meaning(namespace, ty).Done?
    ensures Cyclic(map[n.base := ty], namespace, n.base)
  {
    var defs := map[n.base := ty];
    if Within(ty, either - {n.base}) { MentionedBase(ty, n, either - {n.base}); }
    forall fuel: nat
      ensures Resolve(defs, namespace, CommonTypeRef(Name([], n.base)), fuel) == OutOfFuel
    {
      if fuel > 0 {
        CapturedNeverDone(defs, namespace, ty, either, n.base, fuel - 1);
        NeverPanics(ty, ty, n.base, namespace, either, fuel - 1);
      }
    }
  }

  /** Binding a type that mentions a name to the base of that name makes a cycle. */
  lemma CyclicRun(
      attributes: seq<SchemaType>, schema: Namespace, order: KeyOrder, namespace: Option<Name>, ids: iset<string>,
      p: nat, n: Name)
    returns (u: Unstructured)
    requires IsOrder(order) && ReferenceFree(attributes, schema) && p < |Bindable(attributes, schema)|
    requires Mentions(Bindable(attributes, schema)[p], n) && n.base in ids
    requires Meaning(namespace, Bindable(attributes, schema)[p]).Done?
    ensures TextsIn(u, ids) && AddCommonTypes(attributes, schema, order, u).Ok?
    ensures Cyclic(AddCommonTypes(attributes, schema, order, u).value.0.commonTypes, namespace, n.base)
    ensures BindSchema(attributes, schema, u).value.0 == Only(Bindable(attributes, schema)[p], n.base)
  {
    var tys, either := Bindable(attributes, schema), EitherNames(attributes, schema);
    NamesSuffice(attributes, schema);
    TagTypesWithin(schema, either);
    assert tys[p] in tys;
    var u2;
    u, u2 := PickedRun(attributes, schema, order, either, ids, p, n.base);
    CaptureIsCyclic(tys[p], n, namespace, either);
  }

  lemma CyclicNotExpanded(ty: SchemaType, id: string, defs: Definitions, namespace: Option<Name>)
    requires Cyclic(defs, namespace, id)
    ensures !AllExpand(Only(ty, id), defs, namespace)
  {
  }

  /** Exactly when every id of every run expands to the type it was bound to: when no type at which
      binding starts mentions an entity-or-common name.  Other names of the schema do not matter.  Where
      there is a common-type reference, no run succeeds. */
  lemma IdsExpandIff(
      attributes: seq<SchemaType>, schema: Namespace, order: KeyOrder, namespace: Option<Name>, ids: iset<string>)
    requires IsOrder(order)
    requires forall ty <- Bindable(attributes, schema) :: Meaning(namespace, ty).Done?
    requires forall ty, n | ty in Bindable(attributes, schema) && Mentions(ty, n) :: n.base in ids
    ensures (forall u | TextsIn(u, ids) && AddCommonTypes(attributes, schema, order, u).Ok? ::
               IdsExpand(attributes, schema, order, u, namespace))
       <==> (ReferenceFree(attributes, schema) ==> NoneMentioned(Bindable(attributes, schema)))
  {
    var tys := Bindable(attributes, schema);
    if ReferenceFree(attributes, schema) && !NoneMentioned(tys) {
      var ty, n :| ty in tys && Mentions(ty, n);
      var p :| 0 <= p < |tys| && tys[p] == ty;
      var u := CyclicRun(attributes, schema, order, namespace, ids, p, n);
      CyclicNotExpanded(ty, n.base, AddCommonTypes(attributes, schema, order, u).value.0.commonTypes, namespace);
    } else {
      forall u | AddCommonTypes(attributes, schema, order, u).Ok?
        ensures IdsExpand(attributes, schema, order, u, namespace)
      {
        SuccessIsFree(attributes, schema, order, u);
        UnmentionedExpand(attributes, schema, order, u, namespace);
      }
    }
  }
}

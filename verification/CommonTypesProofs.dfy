/** What common-type introduction keeps: unique names, acyclic definitions, and the meaning of every
    type in the schema. */
module CommonTypesProofs {
  import opened Wrappers
  import opened Choices
  import opened SchemaTypes
  import opened CommonTypes

  // ----- name allocation -----

  /** Every id names one type, at one place of its list. */
  ghost predicate Unique(b: Binds) {
    forall t, i, t', i' |
      t in b.bindings && t' in b.bindings && 0 <= i < |b.bindings[t]| && 0 <= i' < |b.bindings[t']|
      :: b.bindings[t][i] == b.bindings[t'][i'] ==> t == t' && i == i'
  }

  ghost predicate Names(b: Binds, id: string) {
    exists t, i :: t in b.bindings && 0 <= i < |b.bindings[t]| && b.bindings[t][i] == id
  }

  /** `ids` is exactly the set of ids across all lists, and no list is empty. */
  ghost predicate Valid(b: Binds) {
    && Unique(b)
    && (forall id :: id in b.ids <==> Names(b, id))
    && (forall t :: t in b.bindings ==> b.bindings[t] != [])
  }

  /** `n` copies of the suffix */
  function Suffixed(id: string, n: nat): string
    decreases n
  {
    if n == 0 then id else Suffixed(id + "___", n - 1)
  }

  /** The id chosen is unused, and it is the shortest unused variant. */
  lemma {:induction false} FreshIdIsFirstUnused(ids: set<string>, id: string) returns (n: nat)
    ensures FreshId(ids, id) == Suffixed(id, n) && FreshId(ids, id) !in ids
    ensures forall k: nat :: k < n ==> Suffixed(id, k) in ids
    decreases AtLeast(ids, |id|)
  {
    if id in ids {
      assert id in AtLeast(ids, |id|) - AtLeast(ids, |id + "___"|);
      var m := FreshIdIsFirstUnused(ids, id + "___");
      n := m + 1;
    } else {
      n := 0;
    }
  }

  lemma AddKeepsValid(b: Binds, ty: SchemaType, id: string)
    requires Valid(b)
    ensures Valid(Add(b, ty, id))
    ensures Add(b, ty, id).ids == b.ids + {FreshId(b.ids, id)} && FreshId(b.ids, id) !in b.ids
  {
    var _ := FreshIdIsFirstUnused(b.ids, id);
    var c, newId := Add(b, ty, id), FreshId(b.ids, id);
    var n := |c.bindings[ty]| - 1;
    assert c.bindings[ty][n] == newId;
    forall t, i | t in c.bindings && 0 <= i < |c.bindings[t]|
      ensures c.bindings[t][i] == newId <==> t == ty && i == n
      ensures !(t == ty && i == n) ==> t in b.bindings && i < |b.bindings[t]| && c.bindings[t][i] == b.bindings[t][i]
    {
      if !(t == ty && i == n) {
        assert Names(b, c.bindings[t][i]);
      }
    }
    forall x | x in c.ids
      ensures Names(c, x)
    {
      if x != newId {
        var t, i :| t in b.bindings && 0 <= i < |b.bindings[t]| && b.bindings[t][i] == x;
        assert c.bindings[t][i] == x;
      }
    }
    forall x | Names(c, x)
      ensures x in c.ids
    {
      var t, i :| t in c.bindings && 0 <= i < |c.bindings[t]| && c.bindings[t][i] == x;
      if x != newId {
        assert Names(b, x);
      }
    }
  }

  /** No reference inside, and every entity-or-common name has one of these base names. */
  ghost predicate Within(ty: SchemaType, either: set<string>) {
    match ty
    case CommonTypeRef(_) => false
    case Set(element) => Within(element, either)
    case Record(attributes, _) => forall a <- attributes :: Within(a.ty, either)
    case EntityOrCommon(name) => name.base in either
    case _ => true
  }

  /** Bound types come from the schema. */
  ghost predicate Sound(b: Binds, either: set<string>) {
    Valid(b) && forall t :: t in b.bindings ==> Within(t, either)
  }

  lemma {:induction false} BindTypeSound(b: Binds, ty: SchemaType, u: Unstructured, either: set<string>)
    requires Sound(b, either) && Within(ty, either)
    ensures BindType(b, ty, u).Ok? ==> Sound(BindType(b, ty, u).value.0, either)
    decreases ty
  {
    if BindType(b, ty, u).Ok? {
      var (heads, u1) := ReadFlip(u).value;
      var b2, u2 := b, u1;
      if heads {
        var (id, rest) := ReadText(u1).value;
        AddKeepsValid(b, ty, id);
        b2, u2 := Add(b, ty, id), rest;
      }
      match ty
      case Set(element) => BindTypeSound(b2, element, u2, either);
      case Record(attributes, _) => BindAttributesSound(b2, attributes, u2, either);
      case _ =>
    }
  }

  lemma {:induction false} BindAttributesSound(
      b: Binds, attributes: seq<Attribute>, u: Unstructured, either: set<string>)
    requires Sound(b, either) && forall a <- attributes :: Within(a.ty, either)
    ensures BindAttributes(b, attributes, u).Ok? ==> Sound(BindAttributes(b, attributes, u).value.0, either)
    decreases attributes
  {
    if attributes != [] && BindAttributes(b, attributes, u).Ok? {
      var (b1, u1) := BindType(b, attributes[0].ty, u).value;
      BindTypeSound(b, attributes[0].ty, u, either);
      BindAttributesSound(b1, attributes[1..], u1, either);
    }
  }

  lemma {:induction false} BindAllSound(b: Binds, tys: seq<SchemaType>, u: Unstructured, either: set<string>)
    requires Sound(b, either) && forall t <- tys :: Within(t, either)
    ensures BindAll(b, tys, u).Ok? ==> Sound(BindAll(b, tys, u).value.0, either)
    decreases tys
  {
    if tys != [] && BindAll(b, tys, u).Ok? {
      var (b1, u1) := BindType(b, tys[0], u).value;
      BindTypeSound(b, tys[0], u, either);
      BindAllSound(b1, tys[1..], u1, either);
    }
  }

  // ----- the definitions made from the bindings -----

  ghost predicate IsRewriting(b: Binds, t: SchemaType, body: SchemaType) {
    exists u, rest :: RewriteSubterms(b, t, u) == Ok((body, rest))
  }

  /** The ids bound to `t` form a chain that ends in a rewriting of t's subterms. */
  ghost predicate Defined(b: Binds, defs: Definitions, t: SchemaType)
    requires t in b.bindings
  {
    var ids := b.bindings[t];
    && (forall i :: 0 <= i < |ids| ==> ids[i] in defs)
    && (forall i :: 0 <= i < |ids| - 1 ==> defs[ids[i]] == CommonTypeRef(Name([], ids[i + 1])))
    && (ids != [] ==> IsRewriting(b, t, defs[ids[|ids| - 1]]))
  }

  lemma {:induction false} LinksEntries(done: Definitions, ids: seq<string>, n: nat)
    requires n < |ids|
    requires forall i, j :: 0 <= i < |ids| && 0 <= j < |ids| && ids[i] == ids[j] ==> i == j
    ensures forall i :: 0 <= i < n ==> ids[i] in Links(done, ids, n)
                                       && Links(done, ids, n)[ids[i]] == CommonTypeRef(Name([], ids[i + 1]))
    ensures forall x :: x !in ids[..n] ==> (x in Links(done, ids, n) <==> x in done)
    ensures forall x :: x !in ids[..n] && x in done ==> Links(done, ids, n)[x] == done[x]
  {
    if n > 0 {
      LinksEntries(done, ids, n - 1);
      assert ids[..n] == ids[..n - 1] + [ids[n - 1]];
    }
  }

  lemma {:induction false} ChainDefines(b: Binds, done: Definitions, t: SchemaType, body: SchemaType)
    requires Unique(b) && t in b.bindings && b.bindings[t] != [] && IsRewriting(b, t, body)
    ensures Defined(b, Chain(done, b.bindings[t], body), t)
  {
    var ids := b.bindings[t];
    var n := |ids| - 1;
    LinksEntries(done, ids, n);
    var defs := Chain(done, ids, body);
    assert defs[ids[n]] == body;
    forall i | 0 <= i < n
      ensures ids[i] in defs && defs[ids[i]] == CommonTypeRef(Name([], ids[i + 1]))
    {
      assert ids[i] != ids[n];
    }
  }

  lemma {:induction false} ChainKeeps(
      b: Binds, done: Definitions, t: SchemaType, body: SchemaType, s: SchemaType)
    requires Unique(b) && t in b.bindings && b.bindings[t] != []
    requires s in b.bindings && s != t && Defined(b, done, s)
    ensures Defined(b, Chain(done, b.bindings[t], body), s)
  {
    var ids, other := b.bindings[t], b.bindings[s];
    LinksEntries(done, ids, |ids| - 1);
    var defs := Chain(done, ids, body);
    forall i | 0 <= i < |other|
      ensures other[i] in defs && defs[other[i]] == done[other[i]]
    {
      assert forall j :: 0 <= j < |ids| ==> other[i] != ids[j];
      assert other[i] !in ids[..|ids| - 1];
    }
  }

  lemma {:induction false} ChainEntries(
      b: Binds, done: Definitions, t: SchemaType, body: SchemaType, s: SchemaType)
    requires Unique(b) && t in b.bindings && b.bindings[t] != [] && IsRewriting(b, t, body)
    requires s in b.bindings && (s == t || Defined(b, done, s))
    ensures Defined(b, Chain(done, b.bindings[t], body), s)
  {
    if s == t { ChainDefines(b, done, t, body); } else { ChainKeeps(b, done, t, body, s); }
  }

  lemma ChainKeys(b: Binds, done: Definitions, t: SchemaType, body: SchemaType)
    requires Valid(b) && t in b.bindings && done.Keys <= b.ids
    ensures Chain(done, b.bindings[t], body).Keys <= b.ids
  {
    var ids := b.bindings[t];
    LinksEntries(done, ids, |ids| - 1);
    forall x | x in Chain(done, ids, body) && x !in done
      ensures x in b.ids
    {
      assert x in ids;
      assert Names(b, x);
    }
  }

  lemma {:induction false} ToCommonTypesDefines(
      b: Binds, keys: seq<SchemaType>, done: Definitions, u: Unstructured, seen: set<SchemaType>)
    requires Valid(b) && forall k <- keys :: k in b.bindings
    requires forall s :: s in seen ==> s in b.bindings && Defined(b, done, s)
    requires done.Keys <= b.ids
    ensures ToCommonTypes(b, keys, done, u).Ok? ==>
              var defs := ToCommonTypes(b, keys, done, u).value.0;
              defs.Keys <= b.ids && forall s :: s in seen || s in keys ==> Defined(b, defs, s)
    decreases keys
  {
    if keys != [] && ToCommonTypes(b, keys, done, u).Ok? {
      var (body, u1) := RewriteSubterms(b, keys[0], u).value;
      var defs := Chain(done, b.bindings[keys[0]], body);
      assert IsRewriting(b, keys[0], body);
      ChainKeys(b, done, keys[0], body);
      forall s | s in seen + {keys[0]}
        ensures Defined(b, defs, s)
      {
        ChainEntries(b, done, keys[0], body, s);
      }
      ToCommonTypesDefines(b, keys[1..], defs, u1, seen + {keys[0]});
    }
  }

  /** The definitions are complete: exactly the ids are defined, each in its chain. */
  ghost predicate Complete(b: Binds, defs: Definitions) {
    defs.Keys == b.ids && forall t :: t in b.bindings ==> Defined(b, defs, t)
  }

  lemma CommonTypesComplete(b: Binds, order: KeyOrder, u: Unstructured)
    requires Valid(b) && IsOrder(order)
    ensures ToCommonTypes(b, order(b.bindings.Keys), map[], u).Ok?
            ==> Complete(b, ToCommonTypes(b, order(b.bindings.Keys), map[], u).value.0)
  {
    var keys := order(b.bindings.Keys);
    assert forall t :: t in keys <==> t in b.bindings;
    ToCommonTypesDefines(b, keys, map[], u, {});
    if ToCommonTypes(b, keys, map[], u).Ok? {
      var defs := ToCommonTypes(b, keys, map[], u).value.0;
      forall id | id in b.ids
        ensures id in defs
      {
        var t, i :| t in b.bindings && 0 <= i < |b.bindings[t]| && b.bindings[t][i] == id;
        assert Defined(b, defs, t);
      }
    }
  }

  // ----- resolution terminates on them, at the original type -----

  /** `k` for every node of the type */
  function Cost(ty: SchemaType, k: nat): (c: nat)
    ensures c >= k
    decreases ty
  {
    match ty
    case Set(element) => k + Cost(element, k)
    case Record(attributes, _) => k + CostAttributes(attributes, k)
    case _ => k
  }

  function CostAttributes(attributes: seq<Attribute>, k: nat): nat
    decreases attributes
  {
    if attributes == [] then 0 else Cost(attributes[0].ty, k) + CostAttributes(attributes[1..], k)
  }

  /** A run's bindings and definitions, and a bound on the length of a chain */
  ghost predicate Ready(b: Binds, defs: Definitions, either: set<string>, k: nat) {
    && either !! defs.Keys
    && forall t :: t in b.bindings ==> Defined(b, defs, t) && 0 < |b.bindings[t]| <= k
  }

  /** What a schema type means where there are no common types */
  function Meaning(namespace: Option<Name>, ty: SchemaType): Outcome<Type> {
    Resolve(map[], namespace, ty, 0)
  }

  lemma {:induction false} RewrittenMeaning(
      b: Binds, defs: Definitions, either: set<string>, k: nat, namespace: Option<Name>,
      ty: SchemaType, u: Unstructured, fuel: nat)
    requires Ready(b, defs, either, k) && Within(ty, either)
    requires RewriteType(b, ty, u).Ok? && fuel >= Cost(ty, k)
    ensures Resolve(defs, namespace, RewriteType(b, ty, u).value.0, fuel) == Meaning(namespace, ty)
    ensures ty in b.bindings ==>
              exists id <- b.bindings[ty] :: RewriteType(b, ty, u).value.0 == CommonTypeRef(Name([], id))
    decreases ty, 2, 0
  {
    if ty in b.bindings {
      var (i, _) := ReadIndex(u, |b.bindings[ty]|).value;
      assert b.bindings[ty][i] in b.bindings[ty];
      IdMeaning(b, defs, either, k, namespace, ty, i, fuel);
    } else {
      SubtermsMeaning(b, defs, either, k, namespace, ty, u, fuel);
    }
  }

  /** Following a chain from its i-th id takes one lookup for each id left. */
  lemma {:induction false} ChainMeaning(defs: Definitions, namespace: Option<Name>, ids: seq<string>, i: nat, fuel: nat)
    requires i < |ids| && forall j :: 0 <= j < |ids| ==> ids[j] in defs
    requires forall j :: 0 <= j < |ids| - 1 ==> defs[ids[j]] == CommonTypeRef(Name([], ids[j + 1]))
    requires fuel >= |ids| - i
    ensures Resolve(defs, namespace, CommonTypeRef(Name([], ids[i])), fuel)
         == Resolve(defs, namespace, defs[ids[|ids| - 1]], fuel - (|ids| - i))
    decreases |ids| - i
  {
    if i + 1 < |ids| {
      ChainMeaning(defs, namespace, ids, i + 1, fuel - 1);
    }
  }

  /** Every id expands to the type it was bound to: the chain gets shorter until it reaches the
      rewritten type, whose remaining references are to types of smaller size. */
  lemma {:induction false} IdMeaning(
      b: Binds, defs: Definitions, either: set<string>, k: nat, namespace: Option<Name>,
      ty: SchemaType, i: nat, fuel: nat)
    requires Ready(b, defs, either, k) && Within(ty, either)
    requires ty in b.bindings && i < |b.bindings[ty]|
    requires fuel >= |b.bindings[ty]| - i + (Cost(ty, k) - k)
    ensures Resolve(defs, namespace, CommonTypeRef(Name([], b.bindings[ty][i])), fuel) == Meaning(namespace, ty)
    decreases ty, 1, 0
  {
    var ids := b.bindings[ty];
    assert Defined(b, defs, ty);
    var body := defs[ids[|ids| - 1]];
    assert IsRewriting(b, ty, body);
    var u, rest :| RewriteSubterms(b, ty, u) == Ok((body, rest));
    ChainMeaning(defs, namespace, ids, i, fuel);
    SubtermsMeaning(b, defs, either, k, namespace, ty, u, fuel - (|ids| - i));
  }

  lemma {:induction false} SubtermsMeaning(
      b: Binds, defs: Definitions, either: set<string>, k: nat, namespace: Option<Name>,
      ty: SchemaType, u: Unstructured, fuel: nat)
    requires Ready(b, defs, either, k) && Within(ty, either)
    requires RewriteSubterms(b, ty, u).Ok? && fuel >= Cost(ty, k) - k
    ensures Resolve(defs, namespace, RewriteSubterms(b, ty, u).value.0, fuel) == Meaning(namespace, ty)
    decreases ty, 0, 0
  {
    match ty
    case Set(element) => RewrittenMeaning(b, defs, either, k, namespace, element, u, fuel);
    case Record(attributes, _) => AttributesMeaning(b, defs, either, k, namespace, attributes, u, fuel);
    case _ =>
  }

  lemma {:induction false} AttributesMeaning(
      b: Binds, defs: Definitions, either: set<string>, k: nat, namespace: Option<Name>,
      attributes: seq<Attribute>, u: Unstructured, fuel: nat)
    requires Ready(b, defs, either, k) && forall a <- attributes :: Within(a.ty, either)
    requires RewriteAttributes(b, attributes, u).Ok? && fuel >= CostAttributes(attributes, k)
    ensures ResolveAttributes(defs, namespace, RewriteAttributes(b, attributes, u).value.0, fuel)
         == ResolveAttributes(map[], namespace, attributes, 0)
    decreases attributes, 3, 0
  {
    if attributes != [] {
      var (ty, u1) := RewriteType(b, attributes[0].ty, u).value;
      var (rest, _) := RewriteAttributes(b, attributes[1..], u1).value;
      RewrittenMeaning(b, defs, either, k, namespace, attributes[0].ty, u, fuel);
      AttributesMeaning(b, defs, either, k, namespace, attributes[1..], u1, fuel);
      var all := RewriteAttributes(b, attributes, u).value.0;
      assert all[1..] == rest;
    }
  }
}

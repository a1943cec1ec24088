/** Entity hierarchies: a shuffled pool of entity uids, an index of the pool by entity type, and parent
    edges that only go to later entities of the pool.

    The functions say what the pool, the index and the parents are; the class `Hierarchy` computes
    them in place and is proved against them.  HierarchyProofs states which parent relations arise. */
module Hierarchies {
  import opened Wrappers
  import opened Choices
  import SchemaTypes

  /** The name of an entity type */
  type TypeName = SchemaTypes.Name

  datatype EntityUid = EntityUid(ty: TypeName, eid: string)

  /** Attributes and tags, their values as text */
  datatype Data = Data(attrs: map<string, string>, tags: map<string, string>)

  const NO_DATA := Data(map[], map[])

  datatype Entity = Entity(uid: EntityUid, parents: set<EntityUid>, data: Data)

  type Entities = map<EntityUid, Entity>

  /** Uids grouped under an entity type, in insertion order */
  type Pool = seq<(TypeName, seq<EntityUid>)>

  datatype Mode =
    | SchemaBased(allowedParentTypes: map<TypeName, seq<TypeName>>)
    | Arbitrary

  // ----- what a run computes -----

  function Concat(pool: Pool): seq<EntityUid> {
    if pool == [] then [] else pool[0].1 + Concat(pool[1..])
  }

  function Swap<T>(s: seq<T>, i: nat, j: nat): (r: seq<T>)
    requires i < |s| && j < |s|
    ensures |r| == |s|
  {
    s[i := s[j]][j := s[i]]
  }

  /** The shuffle from position `i` on */
  function Shuffle<T>(s: seq<T>, i: nat, u: Unstructured): Drawn<(seq<T>, Unstructured)>
    requires i <= |s|
    decreases |s| - i
  {
    if i == |s| then Ok((s, u))
    else
      var (k, u1) :- ReadIndex(u, |s| - i);
      Shuffle(Swap(s, i, i + k), i + 1, u1)
  }

  /** Collecting into an insertion-ordered map keeps the first place of every key. */
  function Collect(known: seq<EntityUid>, uids: seq<EntityUid>): seq<EntityUid>
    decreases uids
  {
    if uids == [] then known
    else if uids[0] in known then Collect(known, uids[1..])
    else Collect(known + [uids[0]], uids[1..])
  }

  /** A linear scan of the pool for the uids of one type */
  function OfType(uids: seq<EntityUid>, ty: TypeName): seq<EntityUid> {
    if uids == [] then []
    else if uids[0].ty == ty then [uids[0]] + OfType(uids[1..], ty)
    else OfType(uids[1..], ty)
  }

  function IndexIn(uids: seq<EntityUid>, uid: EntityUid): (i: nat)
    requires uid in uids
    ensures i < |uids| && uids[i] == uid && uid !in uids[..i]
  {
    if uids[0] == uid then 0
    else
      var i := 1 + IndexIn(uids[1..], uid);
      assert uids[..i] == [uids[0]] + uids[1..][..i - 1];
      i
  }

  /** The possible parents of an entity, given the entities after it in the pool */
  function Candidates(mode: Mode, ty: TypeName, later: seq<EntityUid>): Drawn<seq<EntityUid>> {
    match mode
    case Arbitrary => Ok(later)
    case SchemaBased(allowed) =>
      if ty in allowed then Ok(OfTypes(later, allowed[ty])) else Err(Panicked)
  }

  function OfTypes(uids: seq<EntityUid>, tys: seq<TypeName>): seq<EntityUid> {
    if tys == [] then [] else OfType(uids, tys[0]) + OfTypes(uids, tys[1..])
  }

  /** One coin per candidate */
  function Choose(candidates: seq<EntityUid>, parents: set<EntityUid>, u: Unstructured)
    : Drawn<(set<EntityUid>, Unstructured)>
    decreases candidates
  {
    if candidates == [] then Ok((parents, u))
    else
      var (heads, u1) :- ReadFlip(u);
      Choose(candidates[1..], if heads then parents + {candidates[0]} else parents, u1)
  }

  function ParentsAt(mode: Mode, order: seq<EntityUid>, i: nat, u: Unstructured)
    : Drawn<(set<EntityUid>, Unstructured)>
    requires i < |order|
  {
    var candidates :- Candidates(mode, order[i].ty, order[i + 1..]);
    Choose(candidates, {}, u)
  }

  /** What is drawn for the attributes and tags of an entity, given the pool order; it may fail. */
  type Extra = (seq<EntityUid>, EntityUid, Unstructured) -> Drawn<(Data, Unstructured)>

  /** One entity: its parents, then its attributes and tags */
  function EntityAt(mode: Mode, extra: Extra, order: seq<EntityUid>, i: nat, u: Unstructured)
    : (r: Drawn<(Entity, Unstructured)>)
    requires i < |order|
    ensures r.Ok? ==>
              && r.value.0.uid == order[i]
              && exists u1 :: extra(order, order[i], u1) == Ok((r.value.0.data, r.value.1))
  {
    var (parents, u1) :- ParentsAt(mode, order, i, u);
    var (data, u2) :- extra(order, order[i], u1);
    Ok((Entity(order[i], parents, data), u2))
  }

  /** `chosen`, and the entities from position `i` of the pool on */
  function ChooseAll(mode: Mode, extra: Extra, order: seq<EntityUid>, i: nat, chosen: Entities, u: Unstructured)
    : Drawn<(Entities, Unstructured)>
    requires i <= |order|
    decreases |order| - i
  {
    if i == |order| then Ok((chosen, u))
    else
      var (entity, u1) :- EntityAt(mode, extra, order, i, u);
      ChooseAll(mode, extra, order, i + 1, chosen[order[i] := entity], u1)
  }

  /** What remains to be chosen leads to `all`. */
  ghost predicate ChooseLeads(
      all: Drawn<(Entities, Unstructured)>, mode: Mode, extra: Extra, order: seq<EntityUid>, i: nat,
      chosen: Entities, u: Unstructured)
    requires i <= |order|
  {
    all == ChooseAll(mode, extra, order, i, chosen, u)
  }

  lemma ChooseOne(
      all: Drawn<(Entities, Unstructured)>, mode: Mode, extra: Extra, order: seq<EntityUid>, i: nat,
      chosen: Entities, u: Unstructured, entity: Drawn<(Entity, Unstructured)>)
    requires i < |order| && ChooseLeads(all, mode, extra, order, i, chosen, u)
    requires entity == EntityAt(mode, extra, order, i, u)
    ensures entity.Err? ==> all == Err(entity.error)
    ensures entity.Ok? ==>
              ChooseLeads(all, mode, extra, order, i + 1, chosen[order[i] := entity.value.0], entity.value.1)
  {
  }

  function ParentsIn(entities: Entities): map<EntityUid, set<EntityUid>> {
    map uid | uid in entities :: entities[uid].parents
  }

  /** `HierarchyGenerator::generate` from the generated uids on: the pool order and the entities */
  function Generate(pool: Pool, mode: Mode, extra: Extra, u: Unstructured)
    : Drawn<((seq<EntityUid>, Entities), Unstructured)>
  {
    var (shuffled, u1) :- Shuffle(Concat(pool), 0, u);
    var order := Collect([], shuffled);
    var (entities, u2) :- ChooseAll(mode, extra, order, 0, map[], u1);
    Ok(((order, entities), u2))
  }

  // ----- facts about scans -----

  lemma {:induction false} OfTypeConcat(a: seq<EntityUid>, b: seq<EntityUid>, ty: TypeName)
    ensures OfType(a + b, ty) == OfType(a, ty) + OfType(b, ty)
  {
    if a == [] {
      assert a + b == b;
    } else {
      OfTypeConcat(a[1..], b, ty);
      assert (a + b)[0] == a[0] && (a + b)[1..] == a[1..] + b;
    }
  }

  lemma {:induction false} OfTypeMembers(uids: seq<EntityUid>, ty: TypeName)
    ensures forall x :: x in OfType(uids, ty) <==> x in uids && x.ty == ty
  {
    if uids != [] { OfTypeMembers(uids[1..], ty); }
  }

  lemma {:induction false} NoneOfType(uids: seq<EntityUid>, ty: TypeName)
    requires forall uid :: uid in uids ==> uid.ty != ty
    ensures OfType(uids, ty) == []
  {
    if uids != [] {
      assert uids[0] in uids;
      NoneOfType(uids[1..], ty);
    }
  }

  lemma {:induction false} IndexUnique(uids: seq<EntityUid>, k: nat)
    requires Distinct(uids) && k < |uids|
    ensures uids[k] in uids && IndexIn(uids, uids[k]) == k
  {
  }

  lemma {:induction false} CollectDistinct(known: seq<EntityUid>, uids: seq<EntityUid>)
    requires Distinct(known)
    ensures Distinct(Collect(known, uids))
    ensures forall x :: x in Collect(known, uids) <==> x in known || x in uids
    decreases uids
  {
    if uids != [] {
      if uids[0] in known { CollectDistinct(known, uids[1..]); }
      else { CollectDistinct(known + [uids[0]], uids[1..]); }
    }
  }

  lemma Positions(order: seq<EntityUid>, n: nat)
    requires Distinct(order) && n <= |order|
    ensures forall x :: x in order[..n] ==> x in order && IndexIn(order, x) < n
    ensures forall x :: x in order[n..] ==> x in order && IndexIn(order, x) >= n
  {
  }

  /** The scan of a distinct pool splits at position `n` into the uids before and after it. */
  lemma ScanSplits(order: seq<EntityUid>, ty: TypeName, n: nat)
    requires Distinct(order) && n <= |order|
    ensures OfType(order, ty) == OfType(order[..n], ty) + OfType(order[n..], ty)
    ensures forall x :: x in OfType(order[..n], ty) ==> x in order && IndexIn(order, x) < n
    ensures forall x :: x in OfType(order[n..], ty) ==> x in order && IndexIn(order, x) >= n
  {
    assert order == order[..n] + order[n..];
    OfTypeConcat(order[..n], order[n..], ty);
    OfTypeMembers(order[..n], ty);
    OfTypeMembers(order[n..], ty);
    Positions(order, n);
  }

  /** Some of the pool, in pool order */
  ghost predicate Ascending(order: seq<EntityUid>, uids: seq<EntityUid>) {
    && (forall uid <- uids :: uid in order)
    && forall i, j | 0 <= i < j < |uids| :: IndexIn(order, uids[i]) < IndexIn(order, uids[j])
  }

  /** Exactly the first `p` are at or before position `n` of the pool. */
  ghost predicate Cut(order: seq<EntityUid>, uids: seq<EntityUid>, n: nat, p: nat)
    requires forall uid <- uids :: uid in order
  {
    && p <= |uids|
    && (forall k | 0 <= k < p :: IndexIn(order, uids[k]) <= n)
    && (forall k | p <= k < |uids| :: IndexIn(order, uids[k]) > n)
  }

  /** The later part of the pool, in pool order */
  lemma LaterInOrder(order: seq<EntityUid>, n: nat)
    requires Distinct(order) && n <= |order|
    ensures forall x :: x in order[n..] <==> x in order && IndexIn(order, x) >= n
    ensures Ascending(order, order[n..])
  {
    Positions(order, n);
    forall x | x in order && IndexIn(order, x) >= n
      ensures x in order[n..]
    {
      assert order[n..][IndexIn(order, x) - n] == x;
    }
    forall k | 0 <= k < |order| - n
      ensures order[n..][k] in order && IndexIn(order, order[n..][k]) == n + k
    {
      IndexUnique(order, n + k);
    }
  }

  lemma SplitAt(order: seq<EntityUid>, n: nat)
    requires n <= |order|
    ensures order == order[..n] + order[n..]
  {
  }

  lemma AscendingPush(order: seq<EntityUid>, uids: seq<EntityUid>, uid: EntityUid)
    requires Ascending(order, uids) && uid in order
    requires forall x <- uids :: IndexIn(order, x) < IndexIn(order, uid)
    ensures Ascending(order, uids + [uid])
  {
  }

  /** A scan lists uids in pool order. */
  lemma {:induction false} ScanSorted(order: seq<EntityUid>, ty: TypeName, n: nat)
    requires Distinct(order) && n <= |order|
    ensures Ascending(order, OfType(order[..n], ty))
  {
    if n > 0 {
      var uid := order[n - 1];
      ScanSorted(order, ty, n - 1);
      ScanSplits(order, ty, n - 1);
      IndexUnique(order, n - 1);
      assert order[..n] == order[..n - 1] + [uid];
      OfTypeConcat(order[..n - 1], [uid], ty);
      if uid.ty == ty { AscendingPush(order, OfType(order[..n - 1], ty), uid); }
    }
  }

  /** A cut between the uids at or before position `n` and the later ones is where the scan splits. */
  lemma CutIsScan(order: seq<EntityUid>, ty: TypeName, n: nat, all: seq<EntityUid>, p: nat)
    requires Distinct(order) && n < |order| && all == OfType(order, ty)
    requires (forall x <- all :: x in order) && Cut(order, all, n, p)
    ensures all[p..] == OfType(order[n + 1..], ty)
  {
    ScanSplits(order, ty, n + 1);
    var before, later := OfType(order[..n + 1], ty), OfType(order[n + 1..], ty);
    forall k | 0 <= k < |all|
      ensures IndexIn(order, all[k]) <= n <==> k < |before|
    {
      assert if k < |before| then all[k] in before else all[k] in later;
    }
    var first := if p < |all| then IndexIn(order, all[p]) else n + 1;
    var last := if p > 0 then IndexIn(order, all[p - 1]) else n;
    assert last <= n < first;
    assert p == |before|;
    assert all[|before|..] == later;
  }

  lemma WholeScan(order: seq<EntityUid>, ty: TypeName, uids: seq<EntityUid>)
    requires Distinct(order) && uids == OfType(order, ty)
    ensures Ascending(order, uids)
  {
    ScanSorted(order, ty, |order|);
    assert order[..|order|] == order;
  }

  /** The index of a pool: the declared types and those of the pool, each with a scan of the pool */
  ghost predicate IsIndex(index: map<TypeName, seq<EntityUid>>, uids: seq<EntityUid>, declared: seq<TypeName>) {
    && (forall ty :: ty in index <==> ty in declared || exists uid :: uid in uids && uid.ty == ty)
    && (forall ty :: ty in index ==> index[ty] == OfType(uids, ty))
  }

  lemma IndexPush(index: map<TypeName, seq<EntityUid>>, uids: seq<EntityUid>, declared: seq<TypeName>, uid: EntityUid)
    requires IsIndex(index, uids, declared)
    ensures IsIndex(index[uid.ty := (if uid.ty in index then index[uid.ty] else []) + [uid]], uids + [uid], declared)
  {
    forall ty
      ensures OfType(uids + [uid], ty) == OfType(uids, ty) + (if uid.ty == ty then [uid] else [])
    {
      OfTypeConcat(uids, [uid], ty);
    }
    if uid.ty !in index { NoneOfType(uids, uid.ty); }
    var index' := index[uid.ty := (if uid.ty in index then index[uid.ty] else []) + [uid]];
    forall ty
      ensures ty in index' <==> ty in declared || exists x :: x in uids + [uid] && x.ty == ty
    {
      if ty == uid.ty { assert uid in uids + [uid]; }
      if x :| x in uids && x.ty == ty { assert x in uids + [uid]; }
    }
  }

  // ----- facts about coins -----

  /** Go on choosing among further candidates. */
  function ThenChoose(first: Drawn<(set<EntityUid>, Unstructured)>, candidates: seq<EntityUid>)
    : Drawn<(set<EntityUid>, Unstructured)>
  {
    match first
    case Err(e) => Err(e)
    case Ok(chosen) => Choose(candidates, chosen.0, chosen.1)
  }

  lemma {:induction false} ChooseConcat(a: seq<EntityUid>, b: seq<EntityUid>, parents: set<EntityUid>, u: Unstructured)
    ensures Choose(a + b, parents, u) == ThenChoose(Choose(a, parents, u), b)
    decreases a
  {
    if a == [] {
      assert a + b == b;
    } else {
      assert (a + b)[1..] == a[1..] + b;
      if u != [] && u[0].Flip? {
        ChooseConcat(a[1..], b, if u[0].heads then parents + {a[0]} else parents, u[1..]);
      }
    }
  }

  /** The choices for the types from the `t`-th on lead to `all`. */
  ghost predicate LeadsTo(all: Drawn<(set<EntityUid>, Unstructured)>, later: seq<EntityUid>, tys: seq<TypeName>, t: nat,
                          parents: set<EntityUid>, u: Unstructured)
    requires t <= |tys|
  {
    all == Choose(OfTypes(later, tys[t..]), parents, u)
  }

  lemma {:induction false} LeadsFromStart(later: seq<EntityUid>, tys: seq<TypeName>, u: Unstructured)
    ensures LeadsTo(Choose(OfTypes(later, tys), {}, u), later, tys, 0, {}, u)
  {
  }

  lemma {:induction false} LeadsToEnd(
      all: Drawn<(set<EntityUid>, Unstructured)>, later: seq<EntityUid>, tys: seq<TypeName>,
      parents: set<EntityUid>, u: Unstructured)
    requires LeadsTo(all, later, tys, |tys|, parents, u)
    ensures all == Ok((parents, u))
  {
  }

  lemma {:induction false} ChooseNextType(
      all: Drawn<(set<EntityUid>, Unstructured)>, later: seq<EntityUid>, tys: seq<TypeName>,
      t: nat, parents: set<EntityUid>, u: Unstructured,
      chosen: Drawn<(set<EntityUid>, Unstructured)>)
    requires t < |tys| && LeadsTo(all, later, tys, t, parents, u)
    requires chosen == Choose(OfType(later, tys[t]), parents, u)
    ensures chosen.Err? ==> all == chosen
    ensures chosen.Ok? ==> LeadsTo(all, later, tys, t + 1, chosen.value.0, chosen.value.1)
  {
    assert tys[t..][1..] == tys[t + 1..];
    ChooseConcat(OfType(later, tys[t]), OfTypes(later, tys[t + 1..]), parents, u);
  }

  lemma {:induction false} ChosenAreCandidates(candidates: seq<EntityUid>, parents: set<EntityUid>, u: Unstructured)
    ensures Choose(candidates, parents, u).Ok? ==>
              forall x :: x in Choose(candidates, parents, u).value.0 ==> x in parents || x in candidates
    decreases candidates
  {
    if candidates != [] && u != [] && u[0].Flip? {
      ChosenAreCandidates(candidates[1..], if u[0].heads then parents + {candidates[0]} else parents, u[1..]);
    }
  }

  /** No entity is offered to itself: it is not after itself in the pool. */
  lemma NotOwnParent(mode: Mode, order: seq<EntityUid>, i: nat, u: Unstructured)
    requires Distinct(order) && i < |order|
    ensures ParentsAt(mode, order, i, u).Ok? ==> order[i] !in ParentsAt(mode, order, i, u).value.0
  {
    var later := order[i + 1..];
    if Candidates(mode, order[i].ty, later).Ok? {
      if mode.SchemaBased? { OfTypesMembers(later, mode.allowedParentTypes[order[i].ty]); }
      ChosenAreCandidates(Candidates(mode, order[i].ty, later).value, {}, u);
    }
  }

  lemma {:induction false} OfTypesMembers(uids: seq<EntityUid>, tys: seq<TypeName>)
    ensures forall x :: x in OfTypes(uids, tys) <==> x in uids && x.ty in tys
    decreases tys
  {
    if tys != [] {
      OfTypeMembers(uids, tys[0]);
      OfTypesMembers(uids, tys[1..]);
    }
  }

  // ----- the same, in place -----

  class Hierarchy {
    /** The keys of the insertion-ordered map of entities */
    var order: seq<EntityUid>
    var entities: map<EntityUid, Entity>
    var uidsByType: map<TypeName, seq<EntityUid>>

    /** The pool has no duplicates, and the index agrees with a scan of the pool for every type. */
    ghost predicate Valid()
      reads this
    {
      && Distinct(order)
      && (forall uid :: uid in order <==> uid in entities)
      && (forall uid :: uid in entities ==> entities[uid].uid == uid)
      && (forall uid :: uid in order ==> uid.ty in uidsByType)
      && (forall ty :: ty in uidsByType ==> uidsByType[ty] == OfType(order, ty))
    }

    /** `Hierarchy::new`, for entities in the given order */
    constructor (order: seq<EntityUid>, entities: map<EntityUid, Entity>, declared: seq<TypeName>)
      requires Distinct(order) && forall uid :: uid in order <==> uid in entities
      requires forall uid :: uid in entities ==> entities[uid].uid == uid
      ensures Valid() && this.order == order && this.entities == entities
      ensures IsIndex(uidsByType, order, declared)
    {
      this.order, this.entities := order, entities;
      var index: map<TypeName, seq<EntityUid>> := map ty | ty in declared :: [];
      for i := 0 to |order|
        invariant IsIndex(index, order[..i], declared)
      {
        var uid := order[i];
        IndexPush(index, order[..i], declared, uid);
        assert order[..i + 1] == order[..i] + [uid];
        index := index[uid.ty := (if uid.ty in index then index[uid.ty] else []) + [uid]];
      }
      assert order[..|order|] == order;
      this.uidsByType := index;
    }

    /** Whether `uid` is at or before position `n` of the pool: `self.index_of(uid) <= n` */
    function AtMost(uid: EntityUid, n: nat): bool
      requires uid in order
      reads this
    {
      IndexIn(order, uid) <= n
    }

    /** `slice::partition_point` for `AtMost`, a binary search */
    method PartitionPoint(uids: seq<EntityUid>, n: nat) returns (p: nat)
      requires Ascending(order, uids)
      ensures Cut(order, uids, n, p)
    {
      var lo, hi := 0, |uids|;
      while lo < hi
        invariant 0 <= lo <= hi <= |uids|
        invariant forall k | 0 <= k < lo :: AtMost(uids[k], n)
        invariant forall k | hi <= k < |uids| :: !AtMost(uids[k], n)
      {
        var mid := (lo + hi) / 2;
        if AtMost(uids[mid], n) {
          lo := mid + 1;
        } else {
          hi := mid;
        }
      }
      p := lo;
    }

    /** `uids_after` */
    method UidsAfter(entity: EntityUid) returns (r: seq<EntityUid>)
      requires Valid() && entity in order
      ensures forall uid :: uid in r <==> uid in order && IndexIn(order, uid) > IndexIn(order, entity)
      ensures Ascending(order, r)
      ensures order == order[..IndexIn(order, entity) + 1] + r
    {
      var n := IndexIn(order, entity);
      LaterInOrder(order, n + 1);
      SplitAt(order, n + 1);
      r := order[n + 1..];
    }

    /** `uids_for_type`: the binary search over the index finds what a scan of the later pool finds. */
    method UidsForType(ty: TypeName, entity: EntityUid) returns (r: seq<EntityUid>)
      requires Valid() && entity in order
      ensures r == OfType(order[IndexIn(order, entity) + 1..], ty)
    {
      var n := IndexIn(order, entity);
      if ty in uidsByType {
        var uids := uidsByType[ty];
        WholeScan(order, ty, uids);
        var p := PartitionPoint(uids, n);
        CutIsScan(order, ty, n, uids, p);
        r := uids[p..];
      } else {
        NoneOfType(order[n + 1..], ty);
        r := [];
      }
    }

    /** `replace_entities`, which demands the same uids in the same order and keeps the index */
    method ReplaceEntities(newOrder: seq<EntityUid>, newEntities: map<EntityUid, Entity>)
      requires Valid() && newOrder == order && newEntities.Keys == entities.Keys
      requires forall uid :: uid in newEntities ==> newEntities[uid].uid == uid
      modifies this`entities
      ensures Valid() && entities == newEntities
    {
      entities := newEntities;
    }

    /** `from_uids_by_type`: shuffle the pooled uids in place and index the result. */
    static method FromUidsByType(pool: Pool, u: Unstructured) returns (h: Hierarchy?, r: Drawn<Unstructured>)
      ensures r.Ok? <==> h != null
      ensures r.Err? ==> Shuffle(Concat(pool), 0, u) == Err(r.error)
      ensures r.Ok? ==> fresh(h) && h.Valid() && Shuffle(Concat(pool), 0, u).Ok?
      ensures r.Ok? ==> var (shuffled, rest) := Shuffle(Concat(pool), 0, u).value;
                        && r.value == rest && h.order == Collect([], shuffled)
                        && (forall uid :: uid in h.entities ==> h.entities[uid] == Entity(uid, {}, NO_DATA))
                        && (forall i | 0 <= i < |pool| :: pool[i].0 in h.uidsByType)
    {
      h := null;
      var pooled := Concat(pool);
      var uids := new EntityUid[|pooled|](i requires 0 <= i < |pooled| => pooled[i]);
      assert uids[..] == pooled;
      r := ShuffleInPlace(uids, u);
      if r.Ok? {
        CollectDistinct([], uids[..]);
        var order := Collect([], uids[..]);
        var declared := seq(|pool|, i requires 0 <= i < |pool| => pool[i].0);
        h := new Hierarchy(order, map uid | uid in order :: Entity(uid, {}, NO_DATA), declared);
        assert forall i | 0 <= i < |pool| :: pool[i].0 == declared[i];
      }
    }

    static method SwapInPlace(uids: array<EntityUid>, i: nat, j: nat)
      requires i < uids.Length && j < uids.Length
      modifies uids
      ensures uids[..] == Swap(old(uids[..]), i, j)
    {
      uids[i], uids[j] := uids[j], uids[i];
    }

    static method ShuffleInPlace(uids: array<EntityUid>, u: Unstructured) returns (r: Drawn<Unstructured>)
      modifies uids
      ensures r.Ok? ==> Shuffle(old(uids[..]), 0, u) == Ok((uids[..], r.value))
      ensures r.Err? ==> Shuffle(old(uids[..]), 0, u) == Err(r.error)
    {
      var rest := u;
      for i := 0 to uids.Length
        invariant Shuffle(old(uids[..]), 0, u) == Shuffle(uids[..], i, rest)
      {
        var index :- ReadIndex(rest, uids.Length - i);
        rest := index.1;
        SwapInPlace(uids, i, i + index.0);
      }
      r := Ok(rest);
    }

    /** One coin for every possible parent */
    static method FlipFor(candidates: seq<EntityUid>, parents: set<EntityUid>, u: Unstructured)
      returns (r: Drawn<(set<EntityUid>, Unstructured)>)
      ensures r == Choose(candidates, parents, u)
    {
      var chosen, rest := parents, u;
      for c := 0 to |candidates|
        invariant Choose(candidates, parents, u) == Choose(candidates[c..], chosen, rest)
      {
        assert candidates[c..][1..] == candidates[c + 1..];
        var flip :- ReadFlip(rest);
        rest := flip.1;
        if flip.0 {
          chosen := chosen + {candidates[c]};
        }
      }
      r := Ok((chosen, rest));
    }

    /** Coins for the later entities of one type */
    method ChooseOfType(ty: TypeName, uid: EntityUid, parents: set<EntityUid>, u: Unstructured)
      returns (r: Drawn<(set<EntityUid>, Unstructured)>)
      requires Valid() && uid in order
      ensures r == Choose(OfType(order[IndexIn(order, uid) + 1..], ty), parents, u)
    {
      var candidates := UidsForType(ty, uid);
      r := FlipFor(candidates, parents, u);
    }

    /** Coins for the later entities of each of the types */
    method ChooseOfTypes(tys: seq<TypeName>, uid: EntityUid, u: Unstructured)
      returns (r: Drawn<(set<EntityUid>, Unstructured)>)
      requires Valid() && uid in order
      ensures r == Choose(OfTypes(order[IndexIn(order, uid) + 1..], tys), {}, u)
    {
      ghost var later := order[IndexIn(order, uid) + 1..];
      ghost var all := Choose(OfTypes(later, tys), {}, u);
      var parents, rest := {}, u;
      LeadsFromStart(later, tys, u);
      for t := 0 to |tys|
        invariant LeadsTo(all, later, tys, t, parents, rest)
      {
        r := ChooseOfType(tys[t], uid, parents, rest);
        ChooseNextType(all, later, tys, t, parents, rest, r);
        if r.Err? {
          return;
        }
        parents, rest := r.value.0, r.value.1;
      }
      LeadsToEnd(all, later, tys, parents, rest);
      r := Ok((parents, rest));
    }

    /** The parents of one entity */
    method ChooseParents(mode: Mode, uid: EntityUid, u: Unstructured)
      returns (r: Drawn<(set<EntityUid>, Unstructured)>)
      requires Valid() && uid in order
      ensures r == ParentsAt(mode, order, IndexIn(order, uid), u)
      ensures r.Ok? ==> uid !in r.value.0
    {
      match mode {
        case SchemaBased(allowed) =>
          if uid.ty !in allowed {
            return Err(Panicked);
          }
          r := ChooseOfTypes(allowed[uid.ty], uid, u);
        case Arbitrary =>
          var candidates := UidsAfter(uid);
          assert candidates == order[IndexIn(order, uid) + 1..];
          r := FlipFor(candidates, {}, u);
      }
      NotOwnParent(mode, order, IndexIn(order, uid), u);
    }

    /** One entity in full */
    method ChooseEntity(mode: Mode, extra: Extra, i: nat, u: Unstructured) returns (r: Drawn<(Entity, Unstructured)>)
      requires Valid() && i < |order|
      ensures r == EntityAt(mode, extra, order, i, u)
      ensures r.Ok? ==> r.value.0.uid == order[i]
    {
      IndexUnique(order, i);
      var parents :- ChooseParents(mode, order[i], u);
      var data :- extra(order, order[i], parents.1);
      r := Ok((Entity(order[i], parents.0, data.0), data.1));
    }

    /** All entities, chosen in pool order */
    method ChooseEntities(mode: Mode, extra: Extra, u: Unstructured) returns (r: Drawn<(Entities, Unstructured)>)
      requires Valid()
      ensures r == ChooseAll(mode, extra, order, 0, map[], u)
      ensures r.Ok? ==> r.value.0.Keys == entities.Keys
      ensures r.Ok? ==> forall uid :: uid in r.value.0 ==> r.value.0[uid].uid == uid
    {
      ghost var all := ChooseAll(mode, extra, order, 0, map[], u);
      var chosen: Entities := map[];
      var rest := u;
      for i := 0 to |order|
        invariant chosen.Keys == (set uid | uid in order[..i])
        invariant forall uid :: uid in chosen ==> chosen[uid].uid == uid
        invariant ChooseLeads(all, mode, extra, order, i, chosen, rest)
      {
        var entity := ChooseEntity(mode, extra, i, rest);
        ChooseOne(all, mode, extra, order, i, chosen, rest, entity);
        if entity.Err? {
          return Err(entity.error);
        }
        chosen, rest := chosen[order[i] := entity.value.0], entity.value.1;
      }
      r := Ok((chosen, rest));
    }

    /** The rest of `generate`: choose all entities, then replace those of the pool. */
    method GenerateEntities(mode: Mode, extra: Extra, u: Unstructured) returns (r: Drawn<Unstructured>)
      requires Valid()
      modifies this`entities
      ensures Valid()
      ensures r.Ok? ==> ChooseAll(mode, extra, order, 0, map[], u) == Ok((entities, r.value))
      ensures r.Err? ==> ChooseAll(mode, extra, order, 0, map[], u) == Err(r.error)
    {
      var all :- ChooseEntities(mode, extra, u);
      ReplaceEntities(order, all.0);
      r := Ok(all.1);
    }
  }

  /** The index of a valid hierarchy lists uids under their own type. */
  lemma IndexedByType(h: Hierarchy)
    requires h.Valid()
    ensures forall ty | ty in h.uidsByType :: forall uid <- h.uidsByType[ty] :: uid.ty == ty
  {
    forall ty | ty in h.uidsByType
      ensures forall uid <- h.uidsByType[ty] :: uid.ty == ty
    {
      OfTypeMembers(h.order, ty);
    }
  }

  /** `HierarchyGenerator::generate`, from the generated uids on */
  method GenerateFromPool(pool: Pool, mode: Mode, extra: Extra, u: Unstructured)
    returns (h: Hierarchy?, r: Drawn<Unstructured>)
    ensures r.Ok? ==> h != null && fresh(h) && h.Valid()
    ensures r.Ok? ==> Generate(pool, mode, extra, u) == Ok(((h.order, h.entities), r.value))
    ensures r.Err? ==> Generate(pool, mode, extra, u) == Err(r.error)
  {
    h, r := Hierarchy.FromUidsByType(pool, u);
    if r.Ok? {
      r := h.GenerateEntities(mode, extra, r.value);
    }
  }
}

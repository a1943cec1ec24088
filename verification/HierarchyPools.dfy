/** Which pools of uids can be generated, and which hierarchies the whole generator produces. */
module HierarchyPools {
  import opened Wrappers
  import opened Choices
  import opened Hierarchies
  import opened HierarchyUids
  import opened HierarchyProofs
  import opened HierarchyData

  type Enums = map<TypeName, seq<string>>

  /** Of an enumerated type, one of its choices */
  predicate CanMake(enums: Enums, uid: EntityUid) {
    uid.ty in enums ==> uid.eid in enums[uid.ty]
  }

  /** How many uids a type can get.  Draws that coincide leave fewer, but not none. */
  predicate CanHold(num: NumEntities, types: nat, count: nat)
    requires types > 0
  {
    match num
    case RangePerType(lo, hi) => (lo > 0 ==> count > 0) && (count <= lo || count <= hi)
    case ExactlyPerType(n) => (n > 0 ==> count > 0) && count <= n
    case Exactly(total) => count == total / types
  }

  ghost predicate Makeable(enums: Enums, ty: TypeName, uids: seq<EntityUid>) {
    Distinct(uids) && forall uid <- uids :: uid.ty == ty && CanMake(enums, uid)
  }

  ghost predicate CanTypeUids(ty: TypeName, enums: Enums, num: NumEntities, types: nat, uids: seq<EntityUid>)
    requires types > 0
  {
    Makeable(enums, ty, uids) && CanHold(num, types, |uids|)
  }

  // ----- what is drawn for a type can be -----

  lemma UidOutcome(ty: TypeName, enums: Enums, u: Unstructured)
    requires GenerateUid(ty, enums, u).Ok?
    ensures GenerateUid(ty, enums, u).value.0.ty == ty && CanMake(enums, GenerateUid(ty, enums, u).value.0)
  {
  }

  lemma {:induction false} RangeOutcome(
      ty: TypeName, enums: Enums, uids: seq<EntityUid>, n: nat, more: nat, u: Unstructured)
    requires Makeable(enums, ty, uids) && RangeUids(ty, enums, uids, n, more, u).Ok?
    ensures var all := RangeUids(ty, enums, uids, n, more, u).value.0;
            Makeable(enums, ty, all) && |uids| <= |all| <= |uids| + n + more && (n > 0 ==> all != [])
    decreases n + more
  {
    if n > 0 {
      UidOutcome(ty, enums, u);
      var (uid, u1) := GenerateUid(ty, enums, u).value;
      RangeOutcome(ty, enums, Include(uids, uid), n - 1, more, u1);
    } else if more > 0 && ReadFlip(u).value.0 {
      var u1 := ReadFlip(u).value.1;
      UidOutcome(ty, enums, u1);
      var (uid, u2) := GenerateUid(ty, enums, u1).value;
      RangeOutcome(ty, enums, Include(uids, uid), 0, more - 1, u2);
    }
  }

  lemma {:induction false} ExactOutcome(ty: TypeName, enums: Enums, uids: seq<EntityUid>, n: nat, u: Unstructured)
    requires Makeable(enums, ty, uids) && |uids| <= n && ExactUids(ty, enums, uids, n, u).Ok?
    ensures var all := ExactUids(ty, enums, uids, n, u).value.0;
            Makeable(enums, ty, all) && |all| == n
    decreases |u|
  {
    if |uids| < n {
      UidOutcome(ty, enums, u);
      var (uid, u1) := GenerateUid(ty, enums, u).value;
      ExactOutcome(ty, enums, Include(uids, uid), n, u1);
    }
  }

  lemma TypeUidsOutcome(ty: TypeName, enums: Enums, num: NumEntities, types: nat, u: Unstructured)
    requires types > 0 && TypeUids(ty, enums, num, types, u).Ok?
    ensures CanTypeUids(ty, enums, num, types, TypeUids(ty, enums, num, types, u).value.0)
  {
    match num
    case RangePerType(lo, hi) => RangeOutcome(ty, enums, [], lo, if lo < hi then hi - lo else 0, u);
    case ExactlyPerType(n) => RangeOutcome(ty, enums, [], n, 0, u);
    case Exactly(total) => ExactOutcome(ty, enums, [], total / types, u);
  }

  // ----- any such uids are drawn -----

  lemma DrawUid(ty: TypeName, enums: Enums, uid: EntityUid, rest: Unstructured) returns (u: Unstructured)
    requires uid.ty == ty && CanMake(enums, uid)
    ensures GenerateUid(ty, enums, u) == Ok((uid, rest)) && |u| > |rest|
  {
    var choice := Text(uid.eid);
    if ty in enums {
      var i :| 0 <= i < |enums[ty]| && enums[ty][i] == uid.eid;
      choice := Pick(i);
    }
    u := [choice] + rest;
    assert u[1..] == rest;
  }

  /** The next uid of the list, or again the first when all are there */
  lemma NextUid(enums: Enums, ty: TypeName, uids: seq<EntityUid>, n: nat) returns (uid: EntityUid)
    requires Makeable(enums, ty, uids) && uids != [] && n <= |uids|
    ensures uid.ty == ty && CanMake(enums, uid)
    ensures Include(uids[..n], uid) == if n < |uids| then uids[..n + 1] else uids
  {
    if n < |uids| {
      uid := uids[n];
      assert uids[..n + 1] == uids[..n] + [uid];
    } else {
      uid := uids[0];
      assert uids[..n] == uids && uids[0] in uids;
    }
  }

  lemma {:induction false} DrawRange(
      ty: TypeName, enums: Enums, uids: seq<EntityUid>, k: nat, n: nat, more: nat, rest: Unstructured)
    returns (u: Unstructured)
    requires Makeable(enums, ty, uids) && k <= |uids| <= k + n + more && (n > 0 ==> uids != [])
    ensures RangeUids(ty, enums, uids[..k], n, more, u) == Ok((uids, rest))
    decreases n + more
  {
    if n > 0 {
      var uid := NextUid(enums, ty, uids, k);
      assert uids[..|uids|] == uids;
      var u1 := DrawRange(ty, enums, uids, if k < |uids| then k + 1 else k, n - 1, more, rest);
      u := DrawUid(ty, enums, uid, u1);
    } else if k == |uids| {
      assert uids[..k] == uids;
      u := if more == 0 then rest else [Flip(false)] + rest;
      assert ([Flip(false)] + rest)[1..] == rest;
    } else {
      var uid := NextUid(enums, ty, uids, k);
      var u2 := DrawRange(ty, enums, uids, k + 1, 0, more - 1, rest);
      var u1 := DrawUid(ty, enums, uid, u2);
      u := [Flip(true)] + u1;
      assert u[1..] == u1;
    }
  }

  lemma {:induction false} DrawExact(
      ty: TypeName, enums: Enums, uids: seq<EntityUid>, k: nat, rest: Unstructured)
    returns (u: Unstructured)
    requires Makeable(enums, ty, uids) && k <= |uids|
    ensures ExactUids(ty, enums, uids[..k], |uids|, u) == Ok((uids, rest))
    decreases |uids| - k
  {
    if k == |uids| {
      assert uids[..k] == uids;
      u := rest;
    } else {
      var uid := NextUid(enums, ty, uids, k);
      var u1 := DrawExact(ty, enums, uids, k + 1, rest);
      u := DrawUid(ty, enums, uid, u1);
    }
  }

  lemma DrawTypeUids(
      ty: TypeName, enums: Enums, num: NumEntities, types: nat, uids: seq<EntityUid>, rest: Unstructured)
    returns (u: Unstructured)
    requires types > 0 && CanTypeUids(ty, enums, num, types, uids)
    ensures TypeUids(ty, enums, num, types, u) == Ok((uids, rest))
  {
    assert uids[..0] == [];
    match num {
      case RangePerType(lo, hi) => u := DrawRange(ty, enums, uids, 0, lo, if lo < hi then hi - lo else 0, rest);
      case ExactlyPerType(n) => u := DrawRange(ty, enums, uids, 0, n, 0, rest);
      case Exactly(total) => u := DrawExact(ty, enums, uids, 0, rest);
    }
  }

  // ----- pools -----

  ghost predicate CanPool(types: seq<TypeName>, enums: Enums, num: NumEntities, n: nat, pool: Pool)
    requires |types| <= n
  {
    && |pool| == |types|
    && forall i | 0 <= i < |types| :: pool[i].0 == types[i] && CanTypeUids(types[i], enums, num, n, pool[i].1)
  }

  lemma {:induction false} PoolOutcome(types: seq<TypeName>, enums: Enums, num: NumEntities, n: nat, u: Unstructured)
    requires |types| <= n && GeneratePool(types, enums, num, n, u).Ok?
    ensures CanPool(types, enums, num, n, GeneratePool(types, enums, num, n, u).value.0)
    decreases types
  {
    if types != [] {
      TypeUidsOutcome(types[0], enums, num, n, u);
      PoolOutcome(types[1..], enums, num, n, TypeUids(types[0], enums, num, n, u).value.1);
    }
  }

  lemma {:induction false} DrawPool(
      types: seq<TypeName>, enums: Enums, num: NumEntities, n: nat, pool: Pool, rest: Unstructured)
    returns (u: Unstructured)
    requires |types| <= n && CanPool(types, enums, num, n, pool)
    ensures GeneratePool(types, enums, num, n, u) == Ok((pool, rest))
    decreases types
  {
    u := rest;
    if types != [] {
      var u1 := DrawPool(types[1..], enums, num, n, pool[1..], rest);
      u := DrawTypeUids(types[0], enums, num, n, pool[0].1, u1);
      assert pool == [(types[0], pool[0].1)] + pool[1..];
    }
  }

  /** Exactly which pools a run produces: for every type, in order, different uids of it, as many as the
      settings allow. */
  lemma PoolIff(types: seq<TypeName>, enums: Enums, num: NumEntities, n: nat, pool: Pool)
    requires |types| <= n
    ensures CanPool(types, enums, num, n, pool)
       <==> exists u :: && GeneratePool(types, enums, num, n, u).Ok?
                        && GeneratePool(types, enums, num, n, u).value.0 == pool
  {
    if CanPool(types, enums, num, n, pool) {
      var u := DrawPool(types, enums, num, n, pool, []);
      assert GeneratePool(types, enums, num, n, u).Ok?;
    }
    if u :| GeneratePool(types, enums, num, n, u).Ok? && GeneratePool(types, enums, num, n, u).value.0 == pool {
      PoolOutcome(types, enums, num, n, u);
    }
  }

  // ----- the whole generator -----

  /** Uids of the types, as many of each as the settings allow */
  ghost predicate CanOrder(types: seq<TypeName>, enums: Enums, num: NumEntities, order: seq<EntityUid>) {
    && Distinct(order) && (forall uid <- order :: uid.ty in types && CanMake(enums, uid))
    && forall ty <- types :: CanHold(num, |types|, |OfType(order, ty)|)
  }

  lemma {:induction false} OfTypeDistinct(uids: seq<EntityUid>, ty: TypeName)
    requires Distinct(uids)
    ensures Distinct(OfType(uids, ty))
  {
    if uids != [] {
      OfTypeDistinct(uids[1..], ty);
      OfTypeMembers(uids[1..], ty);
    }
  }

  lemma SameLength(s: seq<EntityUid>, t: seq<EntityUid>)
    requires Distinct(s) && Distinct(t) && forall x :: x in s <==> x in t
    ensures |s| == |t|
  {
    SameElementsSameMultiset(s, t);
    assert |s| == |multiset(s)| == |multiset(t)| == |t|;
  }

  lemma {:induction false} PoolMembers(pool: Pool, x: EntityUid)
    ensures x in Concat(pool) <==> exists i | 0 <= i < |pool| :: x in pool[i].1
  {
    if pool != [] {
      PoolMembers(pool[1..], x);
      if i :| 0 <= i < |pool| && x in pool[i].1 {
        assert i > 0 ==> x in pool[1..][i - 1].1;
      }
      if x in Concat(pool[1..]) {
        var i :| 0 <= i < |pool[1..]| && x in pool[1..][i].1;
        assert x in pool[i + 1].1;
      }
    }
  }

  /** The uids of a pool, in any order, have each type as often as the pool. */
  lemma OrderOfPool(types: seq<TypeName>, enums: Enums, num: NumEntities, pool: Pool, order: seq<EntityUid>)
    requires Distinct(types) && CanPool(types, enums, num, |types|, pool) && SameUids(order, Concat(pool))
    ensures CanOrder(types, enums, num, order)
  {
    forall uid | uid in order
      ensures uid.ty in types && CanMake(enums, uid)
    {
      PoolMembers(pool, uid);
      var i :| 0 <= i < |pool| && uid in pool[i].1;
      assert types[i] == uid.ty;
    }
    forall k | 0 <= k < |types|
      ensures CanHold(num, |types|, |OfType(order, types[k])|)
    {
      OfTypeDistinct(order, types[k]);
      OfTypeMembers(order, types[k]);
      forall x
        ensures x in OfType(order, types[k]) <==> x in pool[k].1
      {
        PoolMembers(pool, x);
        if i :| 0 <= i < |pool| && x in pool[i].1 && x.ty == types[k] { assert i == k; }
      }
      SameLength(OfType(order, types[k]), pool[k].1);
    }
  }

  /** The uids of an order, by type */
  function PoolOf(types: seq<TypeName>, order: seq<EntityUid>): Pool {
    seq(|types|, i requires 0 <= i < |types| => (types[i], OfType(order, types[i])))
  }

  lemma PoolOfOrder(types: seq<TypeName>, enums: Enums, num: NumEntities, order: seq<EntityUid>)
    requires CanOrder(types, enums, num, order)
    ensures CanPool(types, enums, num, |types|, PoolOf(types, order))
    ensures forall x :: x in order <==> x in Concat(PoolOf(types, order))
  {
    var pool := PoolOf(types, order);
    forall i | 0 <= i < |types|
      ensures CanTypeUids(types[i], enums, num, |types|, pool[i].1)
    {
      OfTypeDistinct(order, types[i]);
      OfTypeMembers(order, types[i]);
    }
    forall x
      ensures x in order <==> x in Concat(pool)
    {
      PoolMembers(pool, x);
      forall i | 0 <= i < |types|
        ensures x in pool[i].1 <==> x in order && x.ty == types[i]
      {
        OfTypeMembers(order, types[i]);
      }
    }
  }

  /** Every type of the run is one the schema knows. */
  ghost predicate KnownTypes(mode: Mode, types: seq<TypeName>) {
    mode.SchemaBased? ==> forall ty <- types :: ty in mode.allowedParentTypes
  }

  ghost predicate Produces(
      types: seq<TypeName>, enums: Enums, num: NumEntities, mode: Mode, extra: Extra, u: Unstructured,
      order: seq<EntityUid>, entities: Entities)
  {
    var r := HierarchyRun(types, enums, num, mode, extra, u);
    r.Ok? && r.value.0 == (order, entities)
  }

  lemma ProducedCan(
      types: seq<TypeName>, enums: Enums, num: NumEntities, mode: Mode, extra: Extra, u: Unstructured,
      order: seq<EntityUid>, entities: Entities)
    requires Distinct(types) && Produces(types, enums, num, mode, extra, u, order, entities)
    ensures CanOrder(types, enums, num, order) && Possible(mode, extra, order, entities)
  {
    var (pool, u1) := GeneratePool(types, enums, num, |types|, u).value;
    PoolOutcome(types, enums, num, |types|, u);
    GeneratedIsAcyclic(pool, mode, extra, u1);
    GeneratedAsDrawn(pool, mode, extra, u1);
    OrderOfPool(types, enums, num, pool, order);
  }

  lemma ProduceThis(
      types: seq<TypeName>, enums: Enums, num: NumEntities, mode: Mode, extra: Extra, order: seq<EntityUid>,
      entities: Entities)
    returns (u: Unstructured)
    requires Distinct(types) && KnownTypes(mode, types) && forall s :: Resumable(extra, s)
    requires CanOrder(types, enums, num, order) && Possible(mode, extra, order, entities)
    ensures Produces(types, enums, num, mode, extra, u, order, entities)
  {
    var pool := PoolOf(types, order);
    PoolOfOrder(types, enums, num, order);
    var any := DrawPool(types, enums, num, |types|, pool, []);
    PoolOnce(types, enums, num, |types|, any);
    var u1 := DrawHierarchy(pool, mode, extra, order, entities);
    u := DrawPool(types, enums, num, |types|, pool, u1);
  }

  /** Exactly which hierarchies the whole generator produces for given entity types: any order of any
      different uids of the types, as many of each as the settings allow, with any allowed parents later
      in the order, and any attributes and tags that can be drawn. */
  lemma HierarchyIff(
      types: seq<TypeName>, enums: Enums, num: NumEntities, mode: Mode, extra: Extra, order: seq<EntityUid>,
      entities: Entities)
    requires Distinct(types) && KnownTypes(mode, types) && forall s :: Resumable(extra, s)
    ensures (exists u :: Produces(types, enums, num, mode, extra, u, order, entities))
       <==> CanOrder(types, enums, num, order) && Possible(mode, extra, order, entities)
  {
    if u :| Produces(types, enums, num, mode, extra, u, order, entities) {
      ProducedCan(types, enums, num, mode, extra, u, order, entities);
    }
    if CanOrder(types, enums, num, order) && Possible(mode, extra, order, entities) {
      var u := ProduceThis(types, enums, num, mode, extra, order, entities);
    }
  }
}

/** The uids of a generated hierarchy, and the whole generator. */
module HierarchyUids {
  import opened Wrappers
  import opened Choices
  import opened Hierarchies

  datatype NumEntities = RangePerType(lo: nat, hi: nat) | ExactlyPerType(n: nat) | Exactly(total: nat)

  /** `generate_uid_with_type` */
  function GenerateUid(ty: TypeName, enums: map<TypeName, seq<string>>, u: Unstructured)
    : Drawn<(EntityUid, Unstructured)>
  {
    if ty in enums then
      var (i, u1) :- ReadIndex(u, |enums[ty]|);
      Ok((EntityUid(ty, enums[ty][i]), u1))
    else
      var (eid, u1) :- ReadText(u);
      Ok((EntityUid(ty, eid), u1))
  }

  function Include(uids: seq<EntityUid>, uid: EntityUid): seq<EntityUid> {
    if uid in uids then uids else uids + [uid]
  }

  /** `n` uids, some of which may coincide, and a coin for each of up to `more` others */
  function RangeUids(
      ty: TypeName, enums: map<TypeName, seq<string>>, uids: seq<EntityUid>, n: nat, more: nat, u: Unstructured)
    : Drawn<(seq<EntityUid>, Unstructured)>
    decreases n + more
  {
    if n > 0 then
      var (uid, u1) :- GenerateUid(ty, enums, u);
      RangeUids(ty, enums, Include(uids, uid), n - 1, more, u1)
    else if more == 0 then Ok((uids, u))
    else
      var (another, u1) :- ReadFlip(u);
      if !another then Ok((uids, u1))
      else
        var (uid, u2) :- GenerateUid(ty, enums, u1);
        RangeUids(ty, enums, Include(uids, uid), 0, more - 1, u2)
  }

  /** Draw until there are `n` different uids, or nothing is left to draw. */
  function ExactUids(ty: TypeName, enums: map<TypeName, seq<string>>, uids: seq<EntityUid>, n: nat, u: Unstructured)
    : Drawn<(seq<EntityUid>, Unstructured)>
    decreases |u|
  {
    if |uids| >= n then Ok((uids, u))
    else if u == [] then Err(NotEnoughData)
    else
      var (uid, u1) :- GenerateUid(ty, enums, u);
      ExactUids(ty, enums, Include(uids, uid), n, u1)
  }

  function TypeUids(ty: TypeName, enums: map<TypeName, seq<string>>, num: NumEntities, types: nat, u: Unstructured)
    : Drawn<(seq<EntityUid>, Unstructured)>
    requires types > 0
  {
    match num
    case RangePerType(lo, hi) => RangeUids(ty, enums, [], lo, if lo < hi then hi - lo else 0, u)
    case ExactlyPerType(n) => RangeUids(ty, enums, [], n, 0, u)
    case Exactly(total) => ExactUids(ty, enums, [], total / types, u)
  }

  /** The uids of the remaining types, of `n` types in all */
  function GeneratePool(
      types: seq<TypeName>, enums: map<TypeName, seq<string>>, num: NumEntities, n: nat, u: Unstructured)
    : Drawn<(Pool, Unstructured)>
    requires |types| <= n
  {
    if types == [] then Ok(([], u))
    else
      var (uids, u1) :- TypeUids(types[0], enums, num, n, u);
      var (rest, u2) :- GeneratePool(types[1..], enums, num, n, u1);
      Ok(([(types[0], uids)] + rest, u2))
  }

  ghost predicate OwnType(uids: seq<EntityUid>, ty: TypeName) {
    forall uid <- uids :: uid.ty == ty
  }

  lemma {:induction false} RangeUidsOnce(
      ty: TypeName, enums: map<TypeName, seq<string>>, uids: seq<EntityUid>, n: nat, more: nat, u: Unstructured)
    requires Distinct(uids) && OwnType(uids, ty) && RangeUids(ty, enums, uids, n, more, u).Ok?
    ensures var all := RangeUids(ty, enums, uids, n, more, u).value.0;
            Distinct(all) && OwnType(all, ty)
    decreases n + more
  {
    if n > 0 {
      var (uid, u1) := GenerateUid(ty, enums, u).value;
      RangeUidsOnce(ty, enums, Include(uids, uid), n - 1, more, u1);
    } else if more > 0 && ReadFlip(u).value.0 {
      var (uid, u2) := GenerateUid(ty, enums, ReadFlip(u).value.1).value;
      RangeUidsOnce(ty, enums, Include(uids, uid), 0, more - 1, u2);
    }
  }

  lemma {:induction false} ExactUidsOnce(
      ty: TypeName, enums: map<TypeName, seq<string>>, uids: seq<EntityUid>, n: nat, u: Unstructured)
    requires Distinct(uids) && OwnType(uids, ty) && |uids| <= n && ExactUids(ty, enums, uids, n, u).Ok?
    ensures var all := ExactUids(ty, enums, uids, n, u).value.0;
            Distinct(all) && OwnType(all, ty) && |all| == n
    decreases |u|
  {
    if |uids| < n {
      var (uid, u1) := GenerateUid(ty, enums, u).value;
      ExactUidsOnce(ty, enums, Include(uids, uid), n, u1);
    }
  }

  /** Each type has its uids once, all of that type; with an exact total, equally many for each. */
  lemma TypeUidsOnce(ty: TypeName, enums: map<TypeName, seq<string>>, num: NumEntities, types: nat, u: Unstructured)
    requires types > 0 && TypeUids(ty, enums, num, types, u).Ok?
    ensures var all := TypeUids(ty, enums, num, types, u).value.0;
            Distinct(all) && OwnType(all, ty) && (num.Exactly? ==> |all| == num.total / types)
  {
    match num
    case RangePerType(lo, hi) => RangeUidsOnce(ty, enums, [], lo, if lo < hi then hi - lo else 0, u);
    case ExactlyPerType(n) => RangeUidsOnce(ty, enums, [], n, 0, u);
    case Exactly(total) => ExactUidsOnce(ty, enums, [], total / types, u);
  }

  lemma DistinctAppend(a: seq<EntityUid>, b: seq<EntityUid>)
    requires Distinct(a) && Distinct(b) && forall x <- a :: x !in b
    ensures Distinct(a + b)
  {
    forall i, j | 0 <= i < j < |a + b|
      ensures (a + b)[i] != (a + b)[j]
    {
      if i < |a| <= j { assert a[i] in a && b[j - |a|] in b; }
    }
  }

  /** A generated pool has every uid once, and only uids of the given types. */
  lemma {:induction false} PoolOnce(
      types: seq<TypeName>, enums: map<TypeName, seq<string>>, num: NumEntities, n: nat, u: Unstructured)
    requires Distinct(types) && |types| <= n && GeneratePool(types, enums, num, n, u).Ok?
    ensures var uids := Concat(GeneratePool(types, enums, num, n, u).value.0);
            Distinct(uids) && forall uid <- uids :: uid.ty in types
    decreases types
  {
    if types != [] {
      var (uids, u1) := TypeUids(types[0], enums, num, n, u).value;
      TypeUidsOnce(types[0], enums, num, n, u);
      PoolOnce(types[1..], enums, num, n, u1);
      var rest := GeneratePool(types[1..], enums, num, n, u1).value.0;
      var pool := GeneratePool(types, enums, num, n, u).value.0;
      assert pool[0] == (types[0], uids) && pool[1..] == rest;
      forall uid | uid in uids
        ensures uid !in Concat(rest)
      {
        assert forall j | 0 <= j < |types[1..]| :: types[1..][j] == types[j + 1];
      }
      DistinctAppend(uids, Concat(rest));
    }
  }

  /** What a run for the given entity types computes: the pool order and the entities */
  function HierarchyRun(
      types: seq<TypeName>, enums: map<TypeName, seq<string>>, num: NumEntities, mode: Mode, extra: Extra,
      u: Unstructured)
    : Drawn<((seq<EntityUid>, Entities), Unstructured)>
  {
    var (pool, u1) :- GeneratePool(types, enums, num, |types|, u);
    Generate(pool, mode, extra, u1)
  }

  /** `HierarchyGenerator::generate`, for the given entity types */
  method GenerateHierarchy(
      types: seq<TypeName>, enums: map<TypeName, seq<string>>, num: NumEntities, mode: Mode, extra: Extra,
      u: Unstructured)
    returns (h: Hierarchy?, r: Drawn<Unstructured>)
    requires Distinct(types)
    ensures r.Err? ==> HierarchyRun(types, enums, num, mode, extra, u) == Err(r.error)
    ensures r.Ok? ==>
              && h != null && fresh(h) && h.Valid()
              && HierarchyRun(types, enums, num, mode, extra, u) == Ok(((h.order, h.entities), r.value))
              && var pool := GeneratePool(types, enums, num, |types|, u).value.0;
              Distinct(Concat(pool)) && forall uid <- Concat(pool) :: uid.ty in types
  {
    var pool := GeneratePool(types, enums, num, |types|, u);
    if pool.Err? {
      return null, Err(pool.error);
    }
    PoolOnce(types, enums, num, |types|, u);
    h, r := GenerateFromPool(pool.value.0, mode, extra, pool.value.1);
  }
}

/** Which parent relations the hierarchy generator produces: exactly the acyclic ones whose edges the
    mode allows. */
module HierarchyProofs {
  import opened Wrappers
  import opened Choices
  import opened Hierarchies

  type Parents = map<EntityUid, set<EntityUid>>

  // ----- acyclicity -----

  /** Each entity of the path is followed by one of its parents. */
  ghost predicate IsPath(parents: Parents, path: seq<EntityUid>) {
    forall k | 0 <= k < |path| - 1 :: path[k] in parents && path[k + 1] in parents[path[k]]
  }

  /** The transitive closure of the parent relation is irreflexive. */
  ghost predicate Acyclic(parents: Parents) {
    forall path | IsPath(parents, path) && |path| >= 2 :: path[0] != path[|path| - 1]
  }

  /** Every edge goes to a later entity of the order. */
  ghost predicate Forward(order: seq<EntityUid>, parents: Parents) {
    && parents.Keys == (set uid | uid in order)
    && forall i, p | 0 <= i < |order| && p in parents[order[i]] :: p in order[i + 1..]
  }

  lemma {:induction false} PathGoesForward(order: seq<EntityUid>, parents: Parents, path: seq<EntityUid>, i: nat)
    returns (j: nat)
    requires Distinct(order) && Forward(order, parents) && IsPath(parents, path) && path != []
    requires i < |order| && path[0] == order[i]
    ensures i <= j < |order| && order[j] == path[|path| - 1] && (|path| >= 2 ==> i < j)
    decreases path
  {
    if |path| == 1 {
      j := i;
    } else {
      assert path[0] in parents && path[1] in parents[path[0]];
      var k :| i < k < |order| && order[k] == path[1];
      assert IsPath(parents, path[1..]) by {
        forall n | 0 <= n < |path[1..]| - 1
          ensures path[1..][n] in parents && path[1..][n + 1] in parents[path[1..][n]]
        {
          assert path[1..][n] == path[n + 1];
        }
      }
      j := PathGoesForward(order, parents, path[1..], k);
    }
  }

  lemma ForwardIsAcyclic(order: seq<EntityUid>, parents: Parents)
    requires Distinct(order) && Forward(order, parents)
    ensures Acyclic(parents)
  {
    forall path | IsPath(parents, path) && |path| >= 2
      ensures path[0] != path[|path| - 1]
    {
      assert path[0] in parents;
      var i :| 0 <= i < |order| && order[i] == path[0];
      var _ := PathGoesForward(order, parents, path, i);
    }
  }

  // ----- what a run does -----

  /** An edge the mode allows: any edge, or one to an allowed parent type */
  ghost predicate Allowed(mode: Mode, child: EntityUid, parent: EntityUid) {
    mode.SchemaBased? ==> child.ty in mode.allowedParentTypes && parent.ty in mode.allowedParentTypes[child.ty]
  }

  lemma {:induction false} ShufflePermutes<T>(s: seq<T>, i: nat, u: Unstructured)
    requires i <= |s|
    ensures Shuffle(s, i, u).Ok? ==> multiset(Shuffle(s, i, u).value.0) == multiset(s)
    decreases |s| - i
  {
    if i < |s| && ReadIndex(u, |s| - i).Ok? {
      var (k, u1) := ReadIndex(u, |s| - i).value;
      assert multiset(Swap(s, i, i + k)) == multiset(s);
      ShufflePermutes(Swap(s, i, i + k), i + 1, u1);
    }
  }

  lemma CandidatesAllowed(mode: Mode, child: EntityUid, later: seq<EntityUid>)
    requires Candidates(mode, child.ty, later).Ok?
    ensures forall p :: p in Candidates(mode, child.ty, later).value <==> p in later && Allowed(mode, child, p)
  {
    if mode.SchemaBased? { OfTypesMembers(later, mode.allowedParentTypes[child.ty]); }
  }

  lemma {:induction false} ChosenAreForward(
      mode: Mode, extra: Extra, order: seq<EntityUid>, i: nat, chosen: Entities, u: Unstructured)
    requires i <= |order| && Distinct(order)
    requires chosen.Keys == (set uid | uid in order[..i])
    requires forall k, p | 0 <= k < i && p in chosen[order[k]].parents ::
               p in order[k + 1..] && Allowed(mode, order[k], p)
    ensures ChooseAll(mode, extra, order, i, chosen, u).Ok? ==>
              var all := ChooseAll(mode, extra, order, i, chosen, u).value.0;
              && Forward(order, ParentsIn(all))
              && forall k, p | 0 <= k < |order| && p in ParentsIn(all)[order[k]] :: Allowed(mode, order[k], p)
    decreases |order| - i
  {
    if i < |order| {
      if ParentsAt(mode, order, i, u).Ok? {
        var (parents, u1) := ParentsAt(mode, order, i, u).value;
        CandidatesAllowed(mode, order[i], order[i + 1..]);
        ChosenAreCandidates(Candidates(mode, order[i].ty, order[i + 1..]).value, {}, u);
        if EntityAt(mode, extra, order, i, u).Ok? {
          var (entity, u2) := EntityAt(mode, extra, order, i, u).value;
          ChosenAreForward(mode, extra, order, i + 1, chosen[order[i] := entity], u2);
        }
      }
    } else {
      assert order[..i] == order;
    }
  }

  function GeneratedParents(pool: Pool, mode: Mode, extra: Extra, u: Unstructured): Parents
    requires Generate(pool, mode, extra, u).Ok?
  {
    ParentsIn(Generate(pool, mode, extra, u).value.0.1)
  }

  /** Soundness, for every pool, mode and choices: the pool order has each uid once, every edge is
      allowed and goes forward, and the relation has no cycle whatever the type graph. */
  lemma GeneratedIsAcyclic(pool: Pool, mode: Mode, extra: Extra, u: Unstructured)
    requires Generate(pool, mode, extra, u).Ok?
    ensures var order, parents := Generate(pool, mode, extra, u).value.0.0, GeneratedParents(pool, mode, extra, u);
            && Distinct(order) && (forall uid :: uid in order <==> uid in Concat(pool))
            && Forward(order, parents) && Acyclic(parents)
            && forall child, p | child in parents && p in parents[child] :: Allowed(mode, child, p)
  {
    var (shuffled, u1) := Shuffle(Concat(pool), 0, u).value;
    ShufflePermutes(Concat(pool), 0, u);
    var order, parents := Generate(pool, mode, extra, u).value.0.0, GeneratedParents(pool, mode, extra, u);
    CollectDistinct([], shuffled);
    forall uid
      ensures uid in order <==> uid in Concat(pool)
    {
      assert uid in shuffled <==> uid in multiset(shuffled);
      assert uid in Concat(pool) <==> uid in multiset(Concat(pool));
    }
    ChosenAreForward(mode, extra, order, 0, map[], u1);
    ForwardIsAcyclic(order, parents);
    forall child, p | child in parents && p in parents[child]
      ensures Allowed(mode, child, p)
    {
      var k :| 0 <= k < |order| && order[k] == child;
    }
  }

  // ----- every permutation is a shuffle -----

  lemma FindLater<T>(s: seq<T>, t: seq<T>, i: nat) returns (j: nat)
    requires multiset(s) == multiset(t) && i < |s| == |t| && s[..i] == t[..i]
    ensures i <= j < |s| && s[j] == t[i]
  {
    assert s == s[..i] + s[i..] && t == t[..i] + t[i..];
    var x := t[i];
    assert multiset(s)[x] == multiset(s[..i])[x] + multiset(s[i..])[x];
    assert multiset(t)[x] == multiset(t[..i])[x] + multiset(t[i..])[x];
    assert t[i..][0] == x;
    assert x in multiset(t[i..]);
    assert x in multiset(s[i..]);
    j :| i <= j < |s| && s[j] == t[i];
  }

  lemma SwapIntoPlace<T>(s: seq<T>, t: seq<T>, i: nat, j: nat)
    requires i <= j < |s| == |t| && s[..i] == t[..i] && s[j] == t[i]
    ensures multiset(Swap(s, i, j)) == multiset(s) && Swap(s, i, j)[..i + 1] == t[..i + 1]
  {
  }

  lemma {:induction false} ShuffleReaches<T>(s: seq<T>, t: seq<T>, i: nat, rest: Unstructured) returns (u: Unstructured)
    requires multiset(s) == multiset(t) && i <= |s| == |t| && s[..i] == t[..i]
    ensures Shuffle(s, i, u) == Ok((t, rest))
    decreases |s| - i
  {
    if i == |s| {
      assert s == s[..i] && t == t[..i];
      u := rest;
    } else {
      var j := FindLater(s, t, i);
      SwapIntoPlace(s, t, i, j);
      var u1 := ShuffleReaches(Swap(s, i, j), t, i + 1, rest);
      u := [Pick(j - i)] + u1;
      assert ReadIndex(u, |s| - i) == Ok((j - i, u1));
    }
  }

  // ----- every acyclic relation has a forward order -----

  /** A path inside `nodes`, in a relation without cycles, extends backwards to a node that is
      nobody's parent. */
  lemma {:induction false} FindSource(parents: Parents, nodes: set<EntityUid>, path: seq<EntityUid>)
    returns (source: EntityUid)
    requires Acyclic(parents) && nodes <= parents.Keys
    requires path != [] && IsPath(parents, path) && forall x :: x in path ==> x in nodes
    ensures source in nodes && forall n :: n in nodes ==> source !in parents[n]
    decreases nodes - set x | x in path
  {
    source := path[0];
    if n :| n in nodes && source in parents[n] {
      LongerPath(parents, n, path);
      var longer := [n] + path;
      assert n in (nodes - set x | x in path) - (nodes - set x | x in longer);
      source := FindSource(parents, nodes, longer);
    }
  }

  /** A path extends to any child of its first entity, which is new to it. */
  lemma LongerPath(parents: Parents, n: EntityUid, path: seq<EntityUid>)
    requires Acyclic(parents) && path != [] && IsPath(parents, path)
    requires n in parents && path[0] in parents[n]
    ensures IsPath(parents, [n] + path) && n !in path
  {
    var longer := [n] + path;
    forall k | 0 <= k < |longer| - 1
      ensures longer[k] in parents && longer[k + 1] in parents[longer[k]]
    {
      if k > 0 { assert longer[k] == path[k - 1]; }
    }
    forall k | 0 <= k < |path|
      ensures path[k] != n
    {
      assert IsPath(parents, longer[..k + 2]);
    }
  }

  /** The parents inside `nodes` of each entity come later. */
  ghost predicate ForwardIn(order: seq<EntityUid>, parents: Parents, nodes: set<EntityUid>) {
    && (forall uid :: uid in order <==> uid in nodes) && nodes <= parents.Keys
    && forall i | 0 <= i < |order| :: forall p | p in parents[order[i]] && p in nodes :: p in order[i + 1..]
  }

  lemma SourceFirst(parents: Parents, nodes: set<EntityUid>, source: EntityUid, rest: seq<EntityUid>)
    requires nodes <= parents.Keys && source in nodes && forall n :: n in nodes ==> source !in parents[n]
    requires Distinct(rest) && ForwardIn(rest, parents, nodes - {source})
    ensures Distinct([source] + rest) && ForwardIn([source] + rest, parents, nodes)
  {
  }

  lemma {:induction false} ForwardOrderExists(parents: Parents, nodes: set<EntityUid>) returns (order: seq<EntityUid>)
    requires Acyclic(parents) && nodes <= parents.Keys
    ensures Distinct(order) && ForwardIn(order, parents, nodes)
    decreases nodes
  {
    order := [];
    if nodes != {} {
      var n :| n in nodes;
      var source := FindSource(parents, nodes, [n]);
      var rest := ForwardOrderExists(parents, nodes - {source});
      SourceFirst(parents, nodes, source, rest);
      order := [source] + rest;
    }
  }

  // ----- the choices that produce a given relation -----

  lemma {:induction false} CoinsFor(
      candidates: seq<EntityUid>, parents: set<EntityUid>, wanted: set<EntityUid>, rest: Unstructured)
    returns (u: Unstructured)
    ensures Choose(candidates, parents, u) == Ok((parents + (set c | c in candidates && c in wanted), rest))
    decreases candidates
  {
    if candidates == [] {
      u := rest;
      assert parents + (set c | c in candidates && c in wanted) == parents;
    } else {
      var heads := candidates[0] in wanted;
      var now := if heads then parents + {candidates[0]} else parents;
      var u1 := CoinsFor(candidates[1..], now, wanted, rest);
      u := [Flip(heads)] + u1;
      assert now + (set c | c in candidates[1..] && c in wanted) == parents + (set c | c in candidates && c in wanted);
    }
  }

  /** Every type is one the schema knows; otherwise the generator panics. */
  ghost predicate Known(mode: Mode, uids: seq<EntityUid>) {
    mode.SchemaBased? ==> forall uid <- uids :: uid.ty in mode.allowedParentTypes
  }

  ghost predicate AllAllowed(mode: Mode, parents: Parents) {
    forall child, p | child in parents && p in parents[child] :: Allowed(mode, child, p)
  }

  lemma ChoicesAt(mode: Mode, order: seq<EntityUid>, i: nat, wanted: Parents, rest: Unstructured)
    returns (u: Unstructured)
    requires i < |order| && Known(mode, order) && Forward(order, wanted) && AllAllowed(mode, wanted)
    ensures order[i] in wanted && ParentsAt(mode, order, i, u) == Ok((wanted[order[i]], rest))
  {
    var uid := order[i];
    assert uid in order;
    var candidates := Candidates(mode, uid.ty, order[i + 1..]).value;
    CandidatesAllowed(mode, uid, order[i + 1..]);
    u := CoinsFor(candidates, {}, wanted[uid], rest);
    assert {} + (set c | c in candidates && c in wanted[uid]) == wanted[uid];
  }

  /** Parents are entities of the pool. */
  ghost predicate Closed(parents: Parents) {
    forall child :: child in parents ==> parents[child] <= parents.Keys
  }

  /** Whatever follows, some choices complete the attributes and tags of any entity of the pool. */
  ghost predicate Completable(extra: Extra, order: seq<EntityUid>) {
    forall uid, rest | uid in order :: CanComplete(extra, order, uid, rest)
  }

  ghost predicate CanComplete(extra: Extra, order: seq<EntityUid>, uid: EntityUid, rest: Unstructured) {
    exists u, data :: extra(order, uid, u) == Ok((data, rest))
  }

  /** Whatever the order of the pool */
  ghost predicate CompletableIn(extra: Extra, uids: seq<EntityUid>) {
    forall order | SameUids(order, uids) :: Completable(extra, order)
  }

  ghost predicate SameUids(s: seq<EntityUid>, t: seq<EntityUid>) {
    Distinct(s) && forall uid :: uid in s <==> uid in t
  }

  lemma Complete(extra: Extra, order: seq<EntityUid>, uid: EntityUid, rest: Unstructured)
    returns (u: Unstructured, data: Data)
    requires Completable(extra, order) && uid in order
    ensures extra(order, uid, u) == Ok((data, rest))
  {
    assert CanComplete(extra, order, uid, rest);
    u, data :| extra(order, uid, u) == Ok((data, rest));
  }

  lemma EntityChoices(mode: Mode, extra: Extra, order: seq<EntityUid>, i: nat, wanted: Parents, rest: Unstructured)
    returns (u: Unstructured, entity: Entity)
    requires i < |order| && Known(mode, order) && Forward(order, wanted) && AllAllowed(mode, wanted)
    requires Completable(extra, order)
    ensures order[i] in wanted && entity.parents == wanted[order[i]]
    ensures EntityAt(mode, extra, order, i, u) == Ok((entity, rest))
  {
    var u1, data := Complete(extra, order, order[i], rest);
    u := ChoicesAt(mode, order, i, wanted, u1);
    entity := Entity(order[i], wanted[order[i]], data);
  }

  function Onto(chosen: Entities, r: Drawn<(Entities, Unstructured)>): Drawn<(Entities, Unstructured)> {
    if r.Err? then Err(r.error) else Ok((chosen + r.value.0, r.value.1))
  }

  /** The draws do not depend on what was chosen before. */
  lemma {:induction false} ChooseAfter(
      mode: Mode, extra: Extra, order: seq<EntityUid>, i: nat, chosen: Entities, u: Unstructured)
    requires i <= |order|
    ensures ChooseAll(mode, extra, order, i, chosen, u) == Onto(chosen, ChooseAll(mode, extra, order, i, map[], u))
    decreases |order| - i
  {
    if i == |order| {
      assert chosen + map[] == chosen;
    } else if EntityAt(mode, extra, order, i, u).Ok? {
      var (entity, u1) := EntityAt(mode, extra, order, i, u).value;
      var one: Entities := map[order[i] := entity];
      var rest := ChooseAll(mode, extra, order, i + 1, map[], u1);
      ChooseAfter(mode, extra, order, i + 1, chosen[order[i] := entity], u1);
      ChooseAfter(mode, extra, order, i + 1, one, u1);
      assert map[][order[i] := entity] == one;
      if rest.Ok? { assert chosen[order[i] := entity] + rest.value.0 == chosen + (one + rest.value.0); }
    }
  }

  /** The entities chosen from position `i` on have the wanted parents. */
  ghost predicate AsWanted(order: seq<EntityUid>, i: nat, entities: Entities, wanted: Parents)
    requires i <= |order|
  {
    && entities.Keys == (set uid | uid in order[i..])
    && forall uid :: uid in entities ==> uid in wanted && entities[uid].parents == wanted[uid]
  }

  lemma {:induction false} ChoicesFor(
      mode: Mode, extra: Extra, order: seq<EntityUid>, i: nat, wanted: Parents, rest: Unstructured)
    returns (u: Unstructured)
    requires i <= |order| && Known(mode, order) && Forward(order, wanted) && AllAllowed(mode, wanted)
    requires Completable(extra, order)
    ensures var r := ChooseAll(mode, extra, order, i, map[], u);
            r.Ok? && r.value.1 == rest && AsWanted(order, i, r.value.0, wanted)
    decreases |order| - i
  {
    if i == |order| {
      u := rest;
    } else {
      var u1 := ChoicesFor(mode, extra, order, i + 1, wanted, rest);
      var entity;
      u, entity := EntityChoices(mode, extra, order, i, wanted, u1);
      ChooseAfter(mode, extra, order, i + 1, map[][order[i] := entity], u1);
      assert order[i..] == [order[i]] + order[i + 1..];
    }
  }

  lemma {:induction false} CollectKeeps(known: seq<EntityUid>, uids: seq<EntityUid>)
    requires Distinct(known + uids)
    ensures Collect(known, uids) == known + uids
    decreases uids
  {
    if uids == [] {
      assert known + uids == known;
    } else {
      assert (known + uids)[|known|] == uids[0];
      assert uids[0] !in known by {
        assert forall k | 0 <= k < |known| :: (known + uids)[k] == known[k];
      }
      assert known + uids == (known + [uids[0]]) + uids[1..];
      CollectKeeps(known + [uids[0]], uids[1..]);
    }
  }

  lemma SameElementsSameMultiset(s: seq<EntityUid>, t: seq<EntityUid>)
    requires Distinct(s) && Distinct(t) && forall x :: x in s <==> x in t
    ensures multiset(s) == multiset(t)
  {
    forall x
      ensures multiset(s)[x] == multiset(t)[x]
    {
      DistinctCount(s, x);
      DistinctCount(t, x);
    }
  }

  lemma {:induction false} DistinctCount(s: seq<EntityUid>, x: EntityUid)
    requires Distinct(s)
    ensures multiset(s)[x] == if x in s then 1 else 0
  {
    if s != [] {
      assert s == [s[0]] + s[1..];
      DistinctCount(s[1..], x);
    }
  }

  /** A pool order in which all edges go forward */
  lemma OrderFor(uids: seq<EntityUid>, parents: Parents) returns (order: seq<EntityUid>)
    requires parents.Keys == (set uid | uid in uids) && Closed(parents) && Acyclic(parents)
    ensures SameUids(order, uids) && Forward(order, parents)
  {
    order := ForwardOrderExists(parents, parents.Keys);
  }

  lemma KnownInOrder(mode: Mode, order: seq<EntityUid>, uids: seq<EntityUid>)
    requires Known(mode, uids) && SameUids(order, uids)
    ensures Known(mode, order)
  {
  }

  lemma AllAsWanted(order: seq<EntityUid>, entities: Entities, wanted: Parents)
    requires AsWanted(order, 0, entities, wanted) && wanted.Keys == (set uid | uid in order)
    ensures ParentsIn(entities) == wanted
  {
    assert order[0..] == order;
  }

  /** Completeness: some shuffle and coins produce any given acyclic allowed relation. */
  lemma AcyclicIsGenerated(pool: Pool, mode: Mode, extra: Extra, parents: Parents) returns (u: Unstructured)
    requires Distinct(Concat(pool)) && Known(mode, Concat(pool)) && CompletableIn(extra, Concat(pool))
    requires parents.Keys == (set uid | uid in Concat(pool))
    requires Closed(parents)
    requires Acyclic(parents) && AllAllowed(mode, parents)
    ensures Generate(pool, mode, extra, u).Ok? && Generate(pool, mode, extra, u).value.1 == []
    ensures GeneratedParents(pool, mode, extra, u) == parents
  {
    var order := OrderFor(Concat(pool), parents);
    KnownInOrder(mode, order, Concat(pool));
    var u1 := ChoicesFor(mode, extra, order, 0, parents, []);
    u := ShuffleTo(Concat(pool), order, u1);
    AllAsWanted(order, ChooseAll(mode, extra, order, 0, map[], u1).value.0, parents);
  }

  lemma ShuffleTo(uids: seq<EntityUid>, order: seq<EntityUid>, rest: Unstructured) returns (u: Unstructured)
    requires Distinct(uids) && Distinct(order) && forall x :: x in uids <==> x in order
    ensures Shuffle(uids, 0, u) == Ok((order, rest)) && Collect([], order) == order
  {
    SameElementsSameMultiset(uids, order);
    assert |uids| == |multiset(uids)| == |multiset(order)| == |order|;
    u := ShuffleReaches(uids, order, 0, rest);
    assert [] + order == order;
    CollectKeeps([], order);
  }

  /** For fixed distinct uids of known types, a parent relation over them is generated exactly when
      it is acyclic and all its edges are allowed.  In arbitrary mode every edge is. */
  lemma GeneratedIff(pool: Pool, mode: Mode, extra: Extra, parents: Parents)
    requires Distinct(Concat(pool)) && Known(mode, Concat(pool)) && CompletableIn(extra, Concat(pool))
    requires parents.Keys == (set uid | uid in Concat(pool))
    requires Closed(parents)
    ensures (exists u :: Generate(pool, mode, extra, u).Ok? && GeneratedParents(pool, mode, extra, u) == parents)
       <==> Acyclic(parents) && AllAllowed(mode, parents)
  {
    if u :| Generate(pool, mode, extra, u).Ok? && GeneratedParents(pool, mode, extra, u) == parents {
      GeneratedIsAcyclic(pool, mode, extra, u);
    }
    if Acyclic(parents) && AllAllowed(mode, parents) {
      var u := AcyclicIsGenerated(pool, mode, extra, parents);
    }
  }
}

/** Which entities the hierarchy generator produces: every acyclic allowed parent relation together with
    any attributes and tags that can be drawn, and nothing else. */
module HierarchyData {
  import opened Wrappers
  import opened Choices
  import opened Hierarchies
  import opened HierarchyProofs

  /** Some choices draw these attributes and tags for the entity. */
  ghost predicate Drawable(extra: Extra, order: seq<EntityUid>, uid: EntityUid, data: Data) {
    exists u, rest :: extra(order, uid, u) == Ok((data, rest))
  }

  /** The entity under its own uid, with attributes and tags as drawn for it */
  ghost predicate DrawnEntity(extra: Extra, order: seq<EntityUid>, uid: EntityUid, entity: Entity) {
    entity.uid == uid && Drawable(extra, order, uid, entity.data)
  }

  ghost predicate AllDrawn(extra: Extra, order: seq<EntityUid>, entities: Entities) {
    forall uid :: uid in entities ==> DrawnEntity(extra, order, uid, entities[uid])
  }

  lemma EntityDrawn(mode: Mode, extra: Extra, order: seq<EntityUid>, i: nat, u: Unstructured)
    requires i < |order| && EntityAt(mode, extra, order, i, u).Ok?
    ensures DrawnEntity(extra, order, order[i], EntityAt(mode, extra, order, i, u).value.0)
  {
    var u1 := ParentsAt(mode, order, i, u).value.1;
    var (data, u2) := extra(order, order[i], u1).value;
    assert extra(order, order[i], u1) == Ok((data, u2));
  }

  lemma {:induction false} ChosenAreDrawn(
      mode: Mode, extra: Extra, order: seq<EntityUid>, i: nat, chosen: Entities, u: Unstructured)
    requires i <= |order| && AllDrawn(extra, order, chosen) && ChooseAll(mode, extra, order, i, chosen, u).Ok?
    ensures AllDrawn(extra, order, ChooseAll(mode, extra, order, i, chosen, u).value.0)
    decreases |order| - i
  {
    if i < |order| {
      EntityDrawn(mode, extra, order, i, u);
      var (entity, u1) := EntityAt(mode, extra, order, i, u).value;
      ChosenAreDrawn(mode, extra, order, i + 1, chosen[order[i] := entity], u1);
    }
  }

  /** For every pool, mode and run: the entities are those of the pool order, each under its own uid and
      with the attributes and tags that some choices draw for it. */
  lemma GeneratedAsDrawn(pool: Pool, mode: Mode, extra: Extra, u: Unstructured)
    requires Generate(pool, mode, extra, u).Ok?
    ensures var (order, entities) := Generate(pool, mode, extra, u).value.0;
            entities.Keys == (set uid | uid in order) && AllDrawn(extra, order, entities)
  {
    GeneratedIsAcyclic(pool, mode, extra, u);
    var (shuffled, u1) := Shuffle(Concat(pool), 0, u).value;
    ChosenAreDrawn(mode, extra, Collect([], shuffled), 0, map[], u1);
  }

  // ----- every such assignment is generated -----

  /** What can be drawn for an entity can be drawn whatever follows: a draw reads its choices from the
      front. */
  ghost predicate Resumable(extra: Extra, order: seq<EntityUid>) {
    forall uid, data, rest | uid in order && Drawable(extra, order, uid, data) ::
      exists u :: extra(order, uid, u) == Ok((data, rest))
  }

  ghost predicate ResumableIn(extra: Extra, uids: seq<EntityUid>) {
    forall order | SameUids(order, uids) :: Resumable(extra, order)
  }

  /** Entities for a pool order, as a run can leave them */
  ghost predicate Possible(mode: Mode, extra: Extra, order: seq<EntityUid>, entities: Entities) {
    && Forward(order, ParentsIn(entities)) && AllAllowed(mode, ParentsIn(entities))
    && AllDrawn(extra, order, entities)
  }

  lemma DrawEntity(
      mode: Mode, extra: Extra, order: seq<EntityUid>, i: nat, entities: Entities, rest: Unstructured)
    returns (u: Unstructured)
    requires i < |order| && Known(mode, order) && Resumable(extra, order) && Possible(mode, extra, order, entities)
    ensures order[i] in entities && EntityAt(mode, extra, order, i, u) == Ok((entities[order[i]], rest))
  {
    var uid := order[i];
    assert uid in order && uid in ParentsIn(entities).Keys;
    assert DrawnEntity(extra, order, uid, entities[uid]);
    var u1 :| extra(order, uid, u1) == Ok((entities[uid].data, rest));
    u := ChoicesAt(mode, order, i, ParentsIn(entities), u1);
  }

  /** The entities of the pool from position `i` on */
  function From(order: seq<EntityUid>, i: nat, entities: Entities): Entities
    requires i <= |order|
  {
    map uid | uid in entities && uid in order[i..] :: entities[uid]
  }

  lemma FromNext(order: seq<EntityUid>, i: nat, entities: Entities)
    requires i < |order| && order[i] in entities
    ensures From(order, i, entities) == map[order[i] := entities[order[i]]] + From(order, i + 1, entities)
  {
    assert order[i..] == [order[i]] + order[i + 1..];
  }

  lemma FromStart(order: seq<EntityUid>, entities: Entities)
    requires forall uid :: uid in entities ==> uid in order
    ensures From(order, 0, entities) == entities
  {
    assert order[0..] == order;
  }

  lemma {:induction false} DrawAll(
      mode: Mode, extra: Extra, order: seq<EntityUid>, i: nat, entities: Entities, rest: Unstructured)
    returns (u: Unstructured)
    requires i <= |order| && Known(mode, order) && Resumable(extra, order) && Possible(mode, extra, order, entities)
    ensures ChooseAll(mode, extra, order, i, map[], u) == Ok((From(order, i, entities), rest))
    decreases |order| - i
  {
    u := rest;
    if i < |order| {
      var u1 := DrawAll(mode, extra, order, i + 1, entities, rest);
      u := DrawEntity(mode, extra, order, i, entities, u1);
      var one: Entities := map[order[i] := entities[order[i]]];
      ChooseAfter(mode, extra, order, i + 1, one, u1);
      assert map[][order[i] := entities[order[i]]] == one;
      FromNext(order, i, entities);
    }
  }

  lemma DrawHierarchy(pool: Pool, mode: Mode, extra: Extra, order: seq<EntityUid>, entities: Entities)
    returns (u: Unstructured)
    requires Distinct(Concat(pool)) && Known(mode, Concat(pool)) && ResumableIn(extra, Concat(pool))
    requires SameUids(order, Concat(pool)) && Possible(mode, extra, order, entities)
    ensures Generate(pool, mode, extra, u) == Ok(((order, entities), []))
  {
    KnownInOrder(mode, order, Concat(pool));
    var u1 := DrawAll(mode, extra, order, 0, entities, []);
    u := ShuffleTo(Concat(pool), order, u1);
    assert forall uid :: uid in entities ==> uid in ParentsIn(entities).Keys;
    FromStart(order, entities);
  }

  ghost predicate Generates(
      pool: Pool, mode: Mode, extra: Extra, u: Unstructured, order: seq<EntityUid>, entities: Entities)
  {
    Generate(pool, mode, extra, u).Ok? && Generate(pool, mode, extra, u).value.0 == (order, entities)
  }

  /** Exactly which hierarchies a run produces, for distinct uids of known types: any order of the pool
      and any entities over it with allowed parents later in the order, each under its own uid and
      with any attributes and tags that can be drawn for it. */
  lemma HierarchiesIff(pool: Pool, mode: Mode, extra: Extra, order: seq<EntityUid>, entities: Entities)
    requires Distinct(Concat(pool)) && Known(mode, Concat(pool)) && ResumableIn(extra, Concat(pool))
    ensures (exists u :: Generates(pool, mode, extra, u, order, entities))
       <==> SameUids(order, Concat(pool)) && Possible(mode, extra, order, entities)
  {
    if u :| Generates(pool, mode, extra, u, order, entities) {
      GeneratedIsAcyclic(pool, mode, extra, u);
      GeneratedAsDrawn(pool, mode, extra, u);
    }
    if SameUids(order, Concat(pool)) && Possible(mode, extra, order, entities) {
      var u := DrawHierarchy(pool, mode, extra, order, entities);
      assert Generates(pool, mode, extra, u, order, entities);
    }
  }

  /** The parents and the data of entities are independent of each other: any acyclic allowed relation
      goes with any attributes and tags that can be drawn in every pool order. */
  lemma AnyDataWithAnyParents(pool: Pool, mode: Mode, extra: Extra, entities: Entities)
    returns (u: Unstructured, order: seq<EntityUid>)
    requires Distinct(Concat(pool)) && Known(mode, Concat(pool)) && ResumableIn(extra, Concat(pool))
    requires entities.Keys == (set uid | uid in Concat(pool))
    requires Closed(ParentsIn(entities)) && Acyclic(ParentsIn(entities)) && AllAllowed(mode, ParentsIn(entities))
    requires forall s | SameUids(s, Concat(pool)) :: AllDrawn(extra, s, entities)
    ensures Generates(pool, mode, extra, u, order, entities)
  {
    order := OrderFor(Concat(pool), ParentsIn(entities));
    u := DrawHierarchy(pool, mode, extra, order, entities);
  }
}

/** Exactly which policy sets the generator produces. */
module PolicySetOutcomes {
  import opened Wrappers
  import opened Choices
  import opened Numerals
  import opened PolicyExprs
  import opened PolicyExprOutcomes
  import opened PolicySets

  // ----- constraints, clauses and annotations -----

  /** Any entity, and the slot that is offered */
  predicate CanTarget(slot: Option<SlotId>, target: EntityOrSlot) {
    target.SlotRef? ==> slot == Some(target.slot)
  }

  predicate CanConstrain(slot: Option<SlotId>, c: Constraint) {
    c.EqTo? || c.InTarget? || c.IsIn? ==> CanTarget(slot, c.target)
  }

  predicate CanAct(a: ActionConstraint) {
    a.InActions? ==> |a.eids| <= MAX_ACTIONS
  }

  ghost predicate CanClauses(clauses: seq<Clause>, n: nat, depth: nat, width: nat) {
    |clauses| <= n && forall c <- clauses :: CanDraw(c.e, depth, width)
  }

  /** The first `n` annotation keys */
  function AnnotationKeys(n: nat): set<string> {
    if n == 0 then {} else AnnotationKeys(n - 1) + {"ann" + Numeral(n - 1)}
  }

  predicate CanAnnotate(annotations: map<string, string>) {
    |annotations| <= MAX_ANNOTATIONS && annotations.Keys == AnnotationKeys(|annotations|)
  }

  lemma TargetOutcome(slot: Option<SlotId>, u: Unstructured)
    requires ArbitraryEntityOrSlot(slot, u).Ok?
    ensures CanTarget(slot, ArbitraryEntityOrSlot(slot, u).value.0)
  {
  }

  lemma ConstraintOutcome(slot: Option<SlotId>, u: Unstructured)
    requires ArbitraryConstraint(slot, u).Ok?
    ensures CanConstrain(slot, ArbitraryConstraint(slot, u).value.0)
  {
  }

  lemma {:induction false} IdsOutcome(n: nat, u: Unstructured)
    requires ArbitraryIds(n, u).Ok?
    ensures |ArbitraryIds(n, u).value.0| <= n
  {
    if n > 0 && ReadFlip(u).value.0 { IdsOutcome(n - 1, ReadText(ReadFlip(u).value.1).value.1); }
  }

  lemma ActionOutcome(u: Unstructured)
    requires ArbitraryAction(u).Ok?
    ensures CanAct(ArbitraryAction(u).value.0)
  {
    var (any, u1) := ReadFlip(u).value;
    if !any && !ReadFlip(u1).value.0 { IdsOutcome(MAX_ACTIONS, ReadFlip(u1).value.1); }
  }

  lemma {:induction false} ClausesOutcome(n: nat, depth: nat, width: nat, u: Unstructured)
    requires ArbitraryClauses(n, depth, width, u).Ok?
    ensures CanClauses(ArbitraryClauses(n, depth, width, u).value.0, n, depth, width)
  {
    if n > 0 && ReadFlip(u).value.0 {
      var u1 := ReadFlip(u).value.1;
      ExprOutcome(depth, width, u1);
      ClausesOutcome(n - 1, depth, width, ArbitraryClause(depth, width, u1).value.1);
    }
  }

  lemma {:induction false} NotYetUsed(m: nat, n: nat)
    requires n <= m
    ensures "ann" + Numeral(m) !in AnnotationKeys(n)
    decreases n
  {
    if n > 0 {
      NotYetUsed(m, n - 1);
      if "ann" + Numeral(m) == "ann" + Numeral(n - 1) {
        assert ("ann" + Numeral(m))[3..] == Numeral(m) && ("ann" + Numeral(n - 1))[3..] == Numeral(n - 1);
        NumeralInjective(m, n - 1);
      }
    }
  }

  lemma {:induction false} AnnotationsOutcome(n: nat, annotations: map<string, string>, u: Unstructured)
    requires annotations.Keys == AnnotationKeys(|annotations|) && ArbitraryAnnotations(n, annotations, u).Ok?
    ensures var all := ArbitraryAnnotations(n, annotations, u).value.0;
            |all| <= |annotations| + n && all.Keys == AnnotationKeys(|all|)
  {
    if n > 0 && ReadFlip(u).value.0 {
      var (text, u2) := ReadText(ReadFlip(u).value.1).value;
      var more := annotations["ann" + Numeral(|annotations|) := text];
      NotYetUsed(|annotations|, |annotations|);
      assert more.Keys == annotations.Keys + {"ann" + Numeral(|annotations|)};
      AnnotationsOutcome(n - 1, more, u2);
    }
  }

  lemma DrawTarget(slot: Option<SlotId>, target: EntityOrSlot, rest: Unstructured) returns (u: Unstructured)
    requires CanTarget(slot, target)
    ensures ArbitraryEntityOrSlot(slot, u) == Ok((target, rest))
  {
    if target.SlotRef? {
      u := [Flip(true)] + rest;
    } else {
      var u1 := [Text(target.uid)] + rest;
      assert u1[1..] == rest;
      u := if slot.None? then u1 else [Flip(false)] + u1;
      assert ([Flip(false)] + u1)[1..] == u1;
    }
  }

  lemma DrawConstraint(slot: Option<SlotId>, c: Constraint, rest: Unstructured) returns (u: Unstructured)
    requires CanConstrain(slot, c)
    ensures ArbitraryConstraint(slot, u) == Ok((c, rest))
  {
    match c {
      case Any => u := [Flip(true)] + rest;
      case IsType(ty) =>
        u := [Flip(false), Pick(3), Text(ty)] + rest;
        assert u[1..][1..][1..] == rest;
      case IsIn(ty, target) =>
        var u1 := DrawTarget(slot, target, rest);
        u := [Flip(false), Pick(4), Text(ty)] + u1;
        assert u[1..][1..][1..] == u1;
      case EqTo(target) =>
        var u1 := DrawTarget(slot, target, rest);
        u := [Flip(false), Pick(0)] + u1;
        assert u[1..][1..] == u1;
      case InTarget(target) =>
        var u1 := DrawTarget(slot, target, rest);
        u := [Flip(false), Pick(2)] + u1;
        assert u[1..][1..] == u1;
    }
  }

  lemma {:induction false} DrawIds(n: nat, ids: seq<string>, rest: Unstructured) returns (u: Unstructured)
    requires |ids| <= n
    ensures ArbitraryIds(n, u) == Ok((ids, rest))
    decreases n
  {
    if ids == [] {
      u := if n == 0 then rest else [Flip(false)] + rest;
      assert ([Flip(false)] + rest)[1..] == rest;
    } else {
      var u1 := DrawIds(n - 1, ids[1..], rest);
      u := [Flip(true), Text(ids[0])] + u1;
      assert u[1..][1..] == u1 && ids == [ids[0]] + ids[1..];
    }
  }

  lemma DrawAction(a: ActionConstraint, rest: Unstructured) returns (u: Unstructured)
    requires CanAct(a)
    ensures ArbitraryAction(u) == Ok((a, rest))
  {
    match a {
      case AnyAction => u := [Flip(true)] + rest;
      case EqAction(eid) =>
        u := [Flip(false), Flip(true), Text(eid)] + rest;
        assert u[1..][1..][1..] == rest;
      case InActions(eids) =>
        var u1 := DrawIds(MAX_ACTIONS, eids, rest);
        u := [Flip(false), Flip(false)] + u1;
        assert u[1..][1..] == u1;
    }
  }

  lemma DrawClause(c: Clause, depth: nat, width: nat, rest: Unstructured) returns (u: Unstructured)
    requires CanDraw(c.e, depth, width)
    ensures ArbitraryClause(depth, width, u) == Ok((c, rest))
  {
    var u1 := [Pick(if c.When? then 0 else 1)] + rest;
    assert u1[1..] == rest;
    u := DrawExpr(c.e, depth, width, u1);
  }

  lemma {:induction false} DrawClauses(clauses: seq<Clause>, n: nat, depth: nat, width: nat, rest: Unstructured)
    returns (u: Unstructured)
    requires CanClauses(clauses, n, depth, width)
    ensures ArbitraryClauses(n, depth, width, u) == Ok((clauses, rest))
    decreases n
  {
    if clauses == [] {
      u := if n == 0 then rest else [Flip(false)] + rest;
      assert ([Flip(false)] + rest)[1..] == rest;
    } else {
      var u2 := DrawClauses(clauses[1..], n - 1, depth, width, rest);
      var u1 := DrawClause(clauses[0], depth, width, u2);
      u := [Flip(true)] + u1;
      assert u[1..] == u1 && clauses == [clauses[0]] + clauses[1..];
    }
  }

  lemma {:induction false} KeysSubset(m: nat, n: nat)
    requires m <= n
    ensures AnnotationKeys(m) <= AnnotationKeys(n)
    decreases n
  {
    if m < n { KeysSubset(m, n - 1); }
  }

  ghost predicate Begins(annotations: map<string, string>, all: map<string, string>) {
    && annotations.Keys == AnnotationKeys(|annotations|) && |annotations| <= |all|
    && forall k | k in annotations :: k in all && annotations[k] == all[k]
  }

  lemma NextAnnotation(annotations: map<string, string>, all: map<string, string>)
    requires all.Keys == AnnotationKeys(|all|) && Begins(annotations, all) && |annotations| < |all|
    ensures var key := "ann" + Numeral(|annotations|);
            && key in all && Begins(annotations[key := all[key]], all)
            && |annotations[key := all[key]]| == |annotations| + 1
  {
    var key := "ann" + Numeral(|annotations|);
    KeysSubset(|annotations| + 1, |all|);
    NotYetUsed(|annotations|, |annotations|);
    assert annotations[key := all[key]].Keys == annotations.Keys + {key};
  }

  lemma BeginsWithAll(annotations: map<string, string>, all: map<string, string>)
    requires all.Keys == AnnotationKeys(|all|) && Begins(annotations, all) && |annotations| == |all|
    ensures annotations == all
  {
  }

  lemma NoAnnotation(n: nat, annotations: map<string, string>, rest: Unstructured) returns (u: Unstructured)
    ensures ArbitraryAnnotations(n, annotations, u) == Ok((annotations, rest))
  {
    u := if n == 0 then rest else [Flip(false)] + rest;
    assert ([Flip(false)] + rest)[1..] == rest;
  }

  lemma OneAnnotation(
      n: nat, annotations: map<string, string>, text: string, all: map<string, string>, u1: Unstructured,
      rest: Unstructured)
    requires n > 0 && ArbitraryAnnotations(n - 1, annotations["ann" + Numeral(|annotations|) := text], u1)
                   == Ok((all, rest))
    ensures ArbitraryAnnotations(n, annotations, [Flip(true), Text(text)] + u1) == Ok((all, rest))
  {
    var u := [Flip(true), Text(text)] + u1;
    assert u[1..][1..] == u1;
  }

  /** The annotations from number `|annotations|` on */
  lemma {:induction false} DrawAnnotations(
      n: nat, annotations: map<string, string>, all: map<string, string>, rest: Unstructured) returns (u: Unstructured)
    requires all.Keys == AnnotationKeys(|all|) && Begins(annotations, all) && |all| <= |annotations| + n
    ensures ArbitraryAnnotations(n, annotations, u) == Ok((all, rest))
    decreases n
  {
    if |annotations| == |all| {
      BeginsWithAll(annotations, all);
      u := NoAnnotation(n, annotations, rest);
    } else {
      var key := "ann" + Numeral(|annotations|);
      NextAnnotation(annotations, all);
      var u1 := DrawAnnotations(n - 1, annotations[key := all[key]], all, rest);
      OneAnnotation(n, annotations, all[key], all, u1, rest);
      u := [Flip(true), Text(all[key])] + u1;
    }
  }

  // ----- templates -----

  /** Which slots may be offered */
  predicate Offered(numSlots: nat, principalSlot: Option<SlotId>, resourceSlot: Option<SlotId>) {
    && (principalSlot.Some? ==> principalSlot.value == PrincipalSlot)
    && (resourceSlot.Some? ==> resourceSlot.value == ResourceSlot)
    && match numSlots
       case 0 => principalSlot.None? && resourceSlot.None?
       case 1 => principalSlot.Some? <==> resourceSlot.None?
       case _ => principalSlot.Some? && resourceSlot.Some?
  }

  ghost predicate CanTemplate(
      t: Template, principalSlot: Option<SlotId>, resourceSlot: Option<SlotId>, depth: nat, width: nat)
  {
    && CanConstrain(principalSlot, t.principal) && CanAct(t.action) && CanConstrain(resourceSlot, t.resource)
    && CanClauses(t.clauses, MAX_CLAUSES, depth, width) && CanAnnotate(t.annotations)
  }

  lemma HeadOutcome(numSlots: nat, u: Unstructured)
    returns (principalSlot: Option<SlotId>, resourceSlot: Option<SlotId>)
    requires ArbitraryHead(numSlots, u).Ok?
    ensures var t := ArbitraryHead(numSlots, u).value.0;
            && Offered(numSlots, principalSlot, resourceSlot)
            && CanConstrain(principalSlot, t.principal) && CanAct(t.action) && CanConstrain(resourceSlot, t.resource)
  {
    var (offered, u1) := OfferedSlots(numSlots, u).value;
    principalSlot, resourceSlot := offered.0, offered.1;
    var u3 := ReadFlip(ReadText(u1).value.1).value.1;
    ConstraintOutcome(principalSlot, u3);
    var u4 := ArbitraryConstraint(principalSlot, u3).value.1;
    ActionOutcome(u4);
    ConstraintOutcome(resourceSlot, ArbitraryAction(u4).value.1);
  }

  lemma TemplateOutcome(numSlots: nat, depth: nat, width: nat, u: Unstructured)
    returns (principalSlot: Option<SlotId>, resourceSlot: Option<SlotId>)
    requires ArbitraryTemplate(numSlots, depth, width, u).Ok?
    ensures Offered(numSlots, principalSlot, resourceSlot)
    ensures CanTemplate(ArbitraryTemplate(numSlots, depth, width, u).value.0, principalSlot, resourceSlot, depth, width)
  {
    principalSlot, resourceSlot := HeadOutcome(numSlots, u);
    var (t, u1) := ArbitraryHead(numSlots, u).value;
    ClausesOutcome(MAX_CLAUSES, depth, width, u1);
    AnnotationsOutcome(MAX_ANNOTATIONS, map[], ArbitraryClauses(MAX_CLAUSES, depth, width, u1).value.1);
  }

  lemma CanDrawSlotFree(e: Expr, depth: nat, width: nat)
    requires CanDraw(e, depth, width)
    ensures SlotsOf(e) == {}
  {
    var u := DrawExpr(e, depth, width, []);
    ExprSlotFree(depth, width, u);
  }

  lemma CanClausesSlotFree(clauses: seq<Clause>, n: nat, depth: nat, width: nat)
    requires CanClauses(clauses, n, depth, width)
    ensures ClauseSlots(clauses) == {}
  {
    forall c | c in clauses
      ensures SlotsOf(c.e) == {}
    {
      CanDrawSlotFree(c.e, depth, width);
    }
  }

  lemma DrawOffered(numSlots: nat, principalSlot: Option<SlotId>, resourceSlot: Option<SlotId>, rest: Unstructured)
    returns (u: Unstructured)
    requires Offered(numSlots, principalSlot, resourceSlot)
    ensures OfferedSlots(numSlots, u) == Ok(((principalSlot, resourceSlot), rest))
  {
    u := if numSlots == 1 then [Flip(principalSlot.Some?)] + rest else rest;
    assert ([Flip(principalSlot.Some?)] + rest)[1..] == rest;
  }

  lemma DrawHead(
      t: Template, numSlots: nat, principalSlot: Option<SlotId>, resourceSlot: Option<SlotId>, rest: Unstructured)
    returns (u: Unstructured)
    requires Offered(numSlots, principalSlot, resourceSlot)
    requires CanConstrain(principalSlot, t.principal) && CanAct(t.action) && CanConstrain(resourceSlot, t.resource)
    ensures ArbitraryHead(numSlots, u) == Ok((t.(clauses := [], annotations := map[]), rest))
  {
    var u5 := DrawConstraint(resourceSlot, t.resource, rest);
    var u4 := DrawAction(t.action, u5);
    var u3 := DrawConstraint(principalSlot, t.principal, u4);
    var u1 := [Text(t.id), Flip(t.permit)] + u3;
    assert u1[1..][1..] == u3;
    u := DrawOffered(numSlots, principalSlot, resourceSlot, u1);
  }

  lemma DrawTemplate(
      t: Template, numSlots: nat, principalSlot: Option<SlotId>, resourceSlot: Option<SlotId>, depth: nat, width: nat,
      rest: Unstructured)
    returns (u: Unstructured)
    requires Offered(numSlots, principalSlot, resourceSlot)
    requires CanTemplate(t, principalSlot, resourceSlot, depth, width)
    ensures ArbitraryTemplate(numSlots, depth, width, u) == Ok((t, rest))
  {
    var u2 := DrawAnnotations(MAX_ANNOTATIONS, map[], t.annotations, rest);
    var u1 := DrawClauses(t.clauses, MAX_CLAUSES, depth, width, u2);
    CanClausesSlotFree(t.clauses, MAX_CLAUSES, depth, width);
    u := DrawHead(t, numSlots, principalSlot, resourceSlot, u1);
    assert t.(clauses := [], annotations := map[]).(clauses := t.clauses, annotations := t.annotations) == t;
  }

  /** Exactly which templates are drawn: any with slots only where they are offered, in constraints, and
      with conditions, actions and annotations within bounds. */
  lemma TemplateIff(t: Template, numSlots: nat, depth: nat, width: nat)
    ensures (exists u :: ArbitraryTemplate(numSlots, depth, width, u).Ok?
                         && ArbitraryTemplate(numSlots, depth, width, u).value.0 == t)
       <==> exists p, r :: Offered(numSlots, p, r) && CanTemplate(t, p, r, depth, width)
  {
    if u :| ArbitraryTemplate(numSlots, depth, width, u).Ok?
            && ArbitraryTemplate(numSlots, depth, width, u).value.0 == t
    {
      var p, r := TemplateOutcome(numSlots, depth, width, u);
    }
    if p, r :| Offered(numSlots, p, r) && CanTemplate(t, p, r, depth, width) {
      var u := DrawTemplate(t, numSlots, p, r, depth, width, []);
      assert ArbitraryTemplate(numSlots, depth, width, u).Ok?;
    }
  }

  // ----- groups and plans -----

  /** A template of the set: with at least one slot, each in its own constraint */
  ghost predicate CanSlotted(t: Template, depth: nat, width: nat) {
    Slots(t) != {} && CanTemplate(t, Some(PrincipalSlot), Some(ResourceSlot), depth, width)
  }

  ghost predicate CanStatic(t: Template, depth: nat, width: nat) {
    CanTemplate(t, None, None, depth, width)
  }

  /** At most two links, each with a value for every slot */
  ghost predicate CanGroup(g: Group, depth: nat, width: nat) {
    CanSlotted(g.template, depth, width) && |g.values| <= 2 && forall v <- g.values :: v.Keys == Slots(g.template)
  }

  ghost predicate CanGroups(groups: seq<Group>, depth: nat, width: nat) {
    forall g <- groups :: CanGroup(g, depth, width)
  }

  ghost predicate CanStatics(statics: seq<Template>, depth: nat, width: nat) {
    forall t <- statics :: CanStatic(t, depth, width)
  }

  ghost predicate CanPlan(plan: Plan, depth: nat, width: nat) {
    && |plan.groups| <= 3 && CanGroups(plan.groups, depth, width)
    && |plan.statics| <= 3 && CanStatics(plan.statics, depth, width)
  }

  lemma OfferedBoth(t: Template, p: Option<SlotId>, r: Option<SlotId>, numSlots: nat, depth: nat, width: nat)
    requires Offered(numSlots, p, r) && CanTemplate(t, p, r, depth, width)
    ensures CanSlotted(WithSlot(t), depth, width)
  {
  }

  lemma SlottedFrom(depth: nat, width: nat, u: Unstructured)
    returns (numSlots: nat, u1: Unstructured, t: Template, rest: Unstructured)
    requires DrawSlotted(depth, width, u).Ok?
    ensures ArbitraryTemplate(numSlots, depth, width, u1) == Ok((t, rest))
    ensures DrawSlotted(depth, width, u) == Ok((WithSlot(t), rest))
  {
    numSlots, u1 := ReadIndex(u, 2).value.0 + 1, ReadIndex(u, 2).value.1;
    t, rest := ArbitraryTemplate(numSlots, depth, width, u1).value.0, DrawSlotted(depth, width, u).value.1;
  }

  lemma SlottedOutcome(depth: nat, width: nat, u: Unstructured)
    requires DrawSlotted(depth, width, u).Ok?
    ensures CanSlotted(DrawSlotted(depth, width, u).value.0, depth, width)
  {
    var numSlots, u1, t, rest := SlottedFrom(depth, width, u);
    var p, r := TemplateOutcome(numSlots, depth, width, u1);
    OfferedBoth(t, p, r, numSlots, depth, width);
  }

  lemma {:induction false} ValuesOutcome(slots: seq<SlotId>, values: map<SlotId, EntityUid>, u: Unstructured)
    requires DrawValues(slots, values, u).Ok?
    ensures DrawValues(slots, values, u).value.0.Keys == values.Keys + (set s | s in slots)
    decreases slots
  {
    if slots != [] {
      var (uid, u1) := ReadText(u).value;
      ValuesOutcome(slots[1..], values[slots[0] := uid], u1);
    }
  }

  /** Whatever holds of each thing drawn holds of all. */
  lemma {:induction false} ManyOutcome<T>(
      draw: Draw<T>, p: T -> bool, n: nat, drawn: seq<T>, u: Unstructured)
    requires forall v | draw(v).Ok? :: p(draw(v).value.0)
    requires DrawMany(draw, n, drawn, u).Ok? && forall t <- drawn :: p(t)
    ensures forall t <- DrawMany(draw, n, drawn, u).value.0 :: p(t)
    decreases n
  {
    if n > 0 {
      var (one, u1) := draw(u).value;
      ManyOutcome(draw, p, n - 1, drawn + [one], u1);
    }
  }

  lemma LinksOutcome(t: Template, u: Unstructured)
    requires LinksDrawn(SlotList(t), u).Ok?
    ensures forall v <- LinksDrawn(SlotList(t), u).value.0 :: v.Keys == Slots(t)
  {
    var draw := ValuesFor(SlotList(t));
    SlotListed(t);
    forall v | draw(v).Ok?
      ensures draw(v).value.0.Keys == Slots(t)
    {
      ValuesOutcome(SlotList(t), map[], v);
    }
    var (numLinks, u1) := ReadIndex(u, 3).value;
    ManyOutcome(draw, (v: map<SlotId, EntityUid>) => v.Keys == Slots(t), numLinks, [], u1);
  }

  lemma GroupOutcome(depth: nat, width: nat, u: Unstructured)
    requires DrawGroup(depth, width, u).Ok?
    ensures CanGroup(DrawGroup(depth, width, u).value.0, depth, width)
  {
    SlottedOutcome(depth, width, u);
    var (t, u1) := DrawSlotted(depth, width, u).value;
    LinksOutcome(t, u1);
  }

  lemma GroupsOutcome(n: nat, depth: nat, width: nat, u: Unstructured)
    requires DrawMany(Groups(depth, width), n, [], u).Ok?
    ensures CanGroups(DrawMany(Groups(depth, width), n, [], u).value.0, depth, width)
  {
    var draw := Groups(depth, width);
    forall v | draw(v).Ok?
      ensures CanGroup(draw(v).value.0, depth, width)
    {
      GroupOutcome(depth, width, v);
    }
    ManyOutcome(draw, (g: Group) => CanGroup(g, depth, width), n, [], u);
  }

  lemma StaticOutcome(depth: nat, width: nat, u: Unstructured)
    requires DrawStatic(depth, width, u).Ok?
    ensures CanStatic(DrawStatic(depth, width, u).value.0, depth, width)
  {
    var p, r := TemplateOutcome(0, depth, width, u);
  }

  lemma StaticsOutcome(n: nat, depth: nat, width: nat, u: Unstructured)
    requires DrawMany(Statics(depth, width), n, [], u).Ok?
    ensures CanStatics(DrawMany(Statics(depth, width), n, [], u).value.0, depth, width)
  {
    var draw := Statics(depth, width);
    forall v | draw(v).Ok?
      ensures CanStatic(draw(v).value.0, depth, width)
    {
      StaticOutcome(depth, width, v);
    }
    ManyOutcome(draw, (t: Template) => CanStatic(t, depth, width), n, [], u);
  }

  lemma PlanOutcome(depth: nat, width: nat, u: Unstructured)
    requires DrawPlan(depth, width, u).Ok?
    ensures CanPlan(DrawPlan(depth, width, u).value.0, depth, width)
  {
    var (numTemplates, u1) := ReadIndex(u, 4).value;
    GroupsOutcome(numTemplates, depth, width, u1);
    var (groups, u2) := DrawMany(Groups(depth, width), numTemplates, [], u1).value;
    var (numStatic, u3) := ReadIndex(u2, 4).value;
    StaticsOutcome(numStatic, depth, width, u3);
  }

  // ----- every plan within bounds is drawn -----

  lemma {:induction false} DrawTheseValues(
      slots: seq<SlotId>, values: map<SlotId, EntityUid>, all: map<SlotId, EntityUid>, rest: Unstructured)
    returns (u: Unstructured)
    requires all.Keys == values.Keys + (set s | s in slots) && forall s | s in values :: values[s] == all[s]
    ensures DrawValues(slots, values, u) == Ok((all, rest))
    decreases slots
  {
    u := rest;
    if slots == [] {
      assert values == all;
    } else {
      var u1 := DrawTheseValues(slots[1..], values[slots[0] := all[slots[0]]], all, rest);
      u := [Text(all[slots[0]])] + u1;
      assert u[1..] == u1;
    }
  }

  /** Something that can be drawn whatever follows */
  ghost predicate Drawable<T(!new)>(draw: Draw<T>, t: T) {
    forall rest :: DrawsTo(draw, t, rest)
  }

  ghost predicate DrawsTo<T(!new)>(draw: Draw<T>, t: T, rest: Unstructured) {
    exists u :: draw(u) == Ok((t, rest))
  }

  lemma {:induction false} DrawThese<T(!new)>(draw: Draw<T>, before: seq<T>, ts: seq<T>, rest: Unstructured)
    returns (u: Unstructured)
    requires forall t <- ts :: Drawable(draw, t)
    ensures DrawMany(draw, |ts|, before, u) == Ok((before + ts, rest))
    decreases ts
  {
    u := rest;
    if ts == [] {
      assert before + ts == before;
    } else {
      assert ts[0] in ts;
      var u1 := DrawThese(draw, before + [ts[0]], ts[1..], rest);
      assert before + [ts[0]] + ts[1..] == before + ts;
      assert DrawsTo(draw, ts[0], u1);
      u :| draw(u) == Ok((ts[0], u1));
    }
  }

  lemma ValuesDrawable(slots: seq<SlotId>, values: map<SlotId, EntityUid>)
    requires values.Keys == (set s | s in slots)
    ensures Drawable(ValuesFor(slots), values)
  {
    var draw := ValuesFor(slots);
    forall rest
      ensures DrawsTo(draw, values, rest)
    {
      var u := DrawTheseValues(slots, map[], values, rest);
      assert draw(u) == Ok((values, rest));
    }
  }

  lemma DrawTheseLinks(t: Template, values: seq<map<SlotId, EntityUid>>, rest: Unstructured) returns (u: Unstructured)
    requires |values| <= 2 && forall v <- values :: v.Keys == Slots(t)
    ensures LinksDrawn(SlotList(t), u) == Ok((values, rest))
  {
    SlotListed(t);
    forall v | v in values
      ensures Drawable(ValuesFor(SlotList(t)), v)
    {
      ValuesDrawable(SlotList(t), v);
    }
    var u1 := DrawThese(ValuesFor(SlotList(t)), [], values, rest);
    u := [Pick(|values|)] + u1;
    assert u[1..] == u1 && [] + values == values;
  }

  lemma DrawThisSlotted(t: Template, depth: nat, width: nat, rest: Unstructured) returns (u: Unstructured)
    requires CanSlotted(t, depth, width)
    ensures DrawSlotted(depth, width, u) == Ok((t, rest))
  {
    var u1 := DrawTemplate(t, 2, Some(PrincipalSlot), Some(ResourceSlot), depth, width, rest);
    u := [Pick(1)] + u1;
    assert u[1..] == u1;
  }

  lemma DrawThisGroup(g: Group, depth: nat, width: nat, rest: Unstructured) returns (u: Unstructured)
    requires CanGroup(g, depth, width)
    ensures DrawGroup(depth, width, u) == Ok((g, rest))
  {
    var u1 := DrawTheseLinks(g.template, g.values, rest);
    u := DrawThisSlotted(g.template, depth, width, u1);
  }

  lemma GroupDrawable(g: Group, depth: nat, width: nat)
    requires CanGroup(g, depth, width)
    ensures Drawable(Groups(depth, width), g)
  {
    var draw := Groups(depth, width);
    forall rest
      ensures DrawsTo(draw, g, rest)
    {
      var u := DrawThisGroup(g, depth, width, rest);
      assert draw(u) == Ok((g, rest));
    }
  }

  lemma StaticSlotFree(t: Template, depth: nat, width: nat)
    requires CanStatic(t, depth, width)
    ensures Slots(t) == {}
  {
    CanClausesSlotFree(t.clauses, MAX_CLAUSES, depth, width);
  }

  lemma DrawThisStatic(t: Template, depth: nat, width: nat, rest: Unstructured) returns (u: Unstructured)
    requires CanStatic(t, depth, width)
    ensures DrawStatic(depth, width, u) == Ok((t, rest))
  {
    StaticSlotFree(t, depth, width);
    u := DrawTemplate(t, 0, None, None, depth, width, rest);
  }

  lemma StaticDrawable(t: Template, depth: nat, width: nat)
    requires CanStatic(t, depth, width)
    ensures Drawable(Statics(depth, width), t)
  {
    var draw := Statics(depth, width);
    forall rest
      ensures DrawsTo(draw, t, rest)
    {
      var u := DrawThisStatic(t, depth, width, rest);
      assert draw(u) == Ok((t, rest));
    }
  }

  lemma DrawThisPlan(plan: Plan, depth: nat, width: nat, rest: Unstructured) returns (u: Unstructured)
    requires CanPlan(plan, depth, width)
    ensures DrawPlan(depth, width, u) == Ok((plan, rest))
  {
    forall t | t in plan.statics
      ensures Drawable(Statics(depth, width), t)
    {
      StaticDrawable(t, depth, width);
    }
    forall g | g in plan.groups
      ensures Drawable(Groups(depth, width), g)
    {
      GroupDrawable(g, depth, width);
    }
    var u3 := DrawThese(Statics(depth, width), [], plan.statics, rest);
    var u2 := [Pick(|plan.statics|)] + u3;
    var u1 := DrawThese(Groups(depth, width), [], plan.groups, u2);
    u := [Pick(|plan.groups|)] + u1;
    assert u[1..] == u1 && u2[1..] == u3;
    assert [] + plan.groups == plan.groups && [] + plan.statics == plan.statics;
  }

  /** Exactly which policy sets a run produces: those of up to three templates with up to two links each
      and up to three static policies, all within the bounds of their parts, ids given in order. */
  lemma PolicySetIff(depth: nat, width: nat, ps: PolicySet)
    ensures (exists u :: PolicySetRun(depth, width, u).Ok? && PolicySetRun(depth, width, u).value.0 == ps)
       <==> exists plan :: CanPlan(plan, depth, width) && ps == Assemble(plan)
  {
    if u :| PolicySetRun(depth, width, u).Ok? && PolicySetRun(depth, width, u).value.0 == ps {
      PlanOutcome(depth, width, u);
    }
    if plan :| CanPlan(plan, depth, width) && ps == Assemble(plan) {
      var u := DrawThisPlan(plan, depth, width, []);
      assert PolicySetRun(depth, width, u).Ok?;
    }
  }

  // ----- what is made of a plan -----

  lemma {:induction false} GroupIds(groups: seq<Group>)
    ensures FirstIds(EntryIds(TemplatesOf(groups)), IdsTaken(groups))
  {
    if groups != [] {
      var n := |groups| - 1;
      var before, next := groups[..n], IdsTaken(groups[..n]);
      GroupIds(before);
      NextIdIsNew(EntryIds(TemplatesOf(before)), next);
      EntryIdsPush(TemplatesOf(before), Renamed(groups[n].template, next));
      MoreIds(EntryIds(TemplatesOf(groups)), next + 1, IdsTaken(groups));
    }
  }

  lemma MoreIds(ids: multiset<string>, next: nat, next': nat)
    requires FirstIds(ids, next) && next <= next'
    ensures FirstIds(ids, next')
  {
    forall id | id in ids
      ensures GivenOut(id, next')
    {
      GivenOutLater(id, next, next');
    }
  }

  lemma StaticIds(statics: seq<Template>, next: nat)
    ensures FirstIds(EntryIds(StaticsOf(statics, next)), next + |statics|)
  {
    NextIdsAreNew(multiset{}, next, |statics|);
    var names := EntryNames(StaticsOf(statics, next));
    assert names == NextIds(next, |statics|) && multiset{} + multiset(names) == multiset(names);
  }

  lemma {:induction false} TemplateAt(groups: seq<Group>, i: nat)
    requires i < |groups|
    ensures |TemplatesOf(groups)| == |groups|
    ensures TemplatesOf(groups)[i] == Renamed(groups[i].template, IdsTaken(groups[..i]))
    decreases |groups|
  {
    var n := |groups| - 1;
    if i < n {
      TemplateAt(groups[..n], i);
      assert groups[..n][..i] == groups[..i];
    } else if n > 0 {
      TemplateAt(groups[..n], 0);
    }
  }

  ghost predicate HasLink(links: seq<Link>, place: int, l: Link) {
    0 <= place < |links| && links[place] == l
  }

  lemma PrefixHasLink(links: seq<Link>, more: seq<Link>, place: int, l: Link)
    requires HasLink(links, place, l)
    ensures HasLink(links + more, place, l)
  {
  }

  lemma LastLinkAt(groups: seq<Group>, n: nat, k: nat)
    requires |groups| == n + 1 && k < |groups[n].values|
    ensures var next := IdsTaken(groups[..n]);
            HasLink(LinksOf(groups), next - n + k, Link(PolicyId(next), PolicyId(next + 1 + k), groups[n].values[k]))
  {
    LinkCount(groups[..n]);
    var next := IdsTaken(groups[..n]);
    assert LinksOf(groups)[next - n + k] == LinksOfOne(PolicyId(next), groups[n].values, next + 1)[k];
  }

  /** The links of a group have the ids after that of its template. */
  lemma {:induction false} LinkAt(groups: seq<Group>, i: nat, k: nat)
    requires i < |groups| && k < |groups[i].values|
    ensures var next := IdsTaken(groups[..i]);
            HasLink(LinksOf(groups), next - i + k, Link(PolicyId(next), PolicyId(next + 1 + k), groups[i].values[k]))
    decreases |groups|
  {
    var n := |groups| - 1;
    if i < n {
      LinkAt(groups[..n], i, k);
      assert groups[..n][..i] == groups[..i];
      var next, last := IdsTaken(groups[..i]), IdsTaken(groups[..n]);
      PrefixHasLink(LinksOf(groups[..n]), LinksOfOne(PolicyId(last), groups[n].values, last + 1), next - i + k,
                    Link(PolicyId(next), PolicyId(next + 1 + k), groups[i].values[k]));
    } else {
      LastLinkAt(groups, n, k);
    }
  }

  lemma {:induction false} LinkCount(groups: seq<Group>)
    ensures |LinksOf(groups)| == IdsTaken(groups) - |groups|
    decreases |groups|
  {
    if groups != [] { LinkCount(groups[..|groups| - 1]); }
  }

  ghost predicate HasPolicy(policies: map<string, Template>, n: nat, t: Template) {
    PolicyId(n) in policies && policies[PolicyId(n)] == t.(id := PolicyId(n))
  }

  /** The template of a group has the id after those of the earlier groups. */
  ghost predicate TemplatesInPlace(ps: PolicySet, groups: seq<Group>) {
    && |ps.templates| == |groups|
    && forall i | 0 <= i < |groups| :: HasPolicy(ps.templates, IdsTaken(groups[..i]), groups[i].template)
  }

  ghost predicate LinksInPlace(ps: PolicySet, groups: seq<Group>) {
    && |ps.links| == IdsTaken(groups) - |groups|
    && forall i, k | 0 <= i < |groups| && 0 <= k < |groups[i].values| :: LinkInPlace(ps, groups, i, k)
  }

  /** The links of a group have the ids after that of its template. */
  ghost predicate LinkInPlace(ps: PolicySet, groups: seq<Group>, i: nat, k: nat)
    requires i < |groups| && k < |groups[i].values|
  {
    var next := IdsTaken(groups[..i]);
    HasLink(ps.links, next - i + k, Link(PolicyId(next), PolicyId(next + 1 + k), groups[i].values[k]))
  }

  /** The static policies have the ids after those of all groups. */
  ghost predicate StaticsInPlace(ps: PolicySet, taken: nat, statics: seq<Template>) {
    && |ps.policies| == |statics|
    && forall j | 0 <= j < |statics| :: HasPolicy(ps.policies, taken + j, statics[j])
  }

  lemma EntriesKept(entries: Entries, next: nat)
    requires FirstIds(EntryIds(entries), next)
    ensures |ToMap(entries)| == |entries|
    ensures forall e <- entries :: e.0 in ToMap(entries) && ToMap(entries)[e.0] == e.1
  {
    ToMapKeepsAll(entries);
  }

  lemma GroupsKept(groups: seq<Group>)
    ensures var templates := TemplatesOf(groups);
            && |ToMap(templates)| == |templates|
            && forall e <- templates :: e.0 in ToMap(templates) && ToMap(templates)[e.0] == e.1
  {
    GroupIds(groups);
    EntriesKept(TemplatesOf(groups), IdsTaken(groups));
  }

  lemma StaticsKept(statics: seq<Template>, next: nat)
    ensures var entries := StaticsOf(statics, next);
            && |ToMap(entries)| == |entries|
            && forall e <- entries :: e.0 in ToMap(entries) && ToMap(entries)[e.0] == e.1
  {
    StaticIds(statics, next);
    EntriesKept(StaticsOf(statics, next), next + |statics|);
  }

  lemma StaticKept(statics: seq<Template>, next: nat, j: nat)
    requires j < |statics|
    ensures HasPolicy(ToMap(StaticsOf(statics, next)), next + j, statics[j])
  {
    StaticsKept(statics, next);
    assert StaticsOf(statics, next)[j] == Renamed(statics[j], next + j);
    assert StaticsOf(statics, next)[j] in StaticsOf(statics, next);
  }

  lemma TemplatesAssembled(plan: Plan)
    ensures TemplatesInPlace(Assemble(plan), plan.groups)
  {
    GroupsKept(plan.groups);
    if plan.groups != [] { TemplateAt(plan.groups, 0); }
    forall i | 0 <= i < |plan.groups|
      ensures HasPolicy(Assemble(plan).templates, IdsTaken(plan.groups[..i]), plan.groups[i].template)
    {
      TemplateAt(plan.groups, i);
      assert TemplatesOf(plan.groups)[i] in TemplatesOf(plan.groups);
    }
  }

  lemma LinkAssembled(plan: Plan, i: nat, k: nat)
    requires i < |plan.groups| && k < |plan.groups[i].values|
    ensures LinkInPlace(Assemble(plan), plan.groups, i, k)
  {
    LinkAt(plan.groups, i, k);
  }

  lemma LinksAssembled(plan: Plan)
    ensures LinksInPlace(Assemble(plan), plan.groups)
  {
    LinkCount(plan.groups);
    forall i, k | 0 <= i < |plan.groups| && 0 <= k < |plan.groups[i].values|
      ensures LinkInPlace(Assemble(plan), plan.groups, i, k)
    {
      LinkAssembled(plan, i, k);
    }
  }

  lemma StaticsAssembled(plan: Plan)
    ensures StaticsInPlace(Assemble(plan), IdsTaken(plan.groups), plan.statics)
  {
    var next := IdsTaken(plan.groups);
    StaticsKept(plan.statics, next);
    forall j | 0 <= j < |plan.statics|
      ensures HasPolicy(ToMap(StaticsOf(plan.statics, next)), next + j, plan.statics[j])
    {
      StaticKept(plan.statics, next, j);
    }
  }

  /** The set made of a plan has as many templates, links and static policies as were drawn, and each is
      there under its number: first the groups in turn, every template before its links, and then the
      static policies. */
  lemma AssembledExactly(plan: Plan)
    ensures TemplatesInPlace(Assemble(plan), plan.groups)
    ensures LinksInPlace(Assemble(plan), plan.groups)
    ensures StaticsInPlace(Assemble(plan), IdsTaken(plan.groups), plan.statics)
  {
    TemplatesAssembled(plan);
    LinksAssembled(plan);
    StaticsAssembled(plan);
  }
}

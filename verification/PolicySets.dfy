/** Generated policy sets: templates with slots, links that fill them, and static policies. */
module PolicySets {
  import opened Wrappers
  import opened Choices
  import opened Numerals
  import opened PolicyExprs

  datatype EntityOrSlot = EntityRef(uid: EntityUid) | SlotRef(slot: SlotId)

  /** A principal or resource constraint */
  datatype Constraint =
    | Any
    | EqTo(target: EntityOrSlot)
    | InTarget(target: EntityOrSlot)
    | IsType(ty: string)
    | IsIn(ty: string, target: EntityOrSlot)

  /** An action constraint names actions by their ids. */
  datatype ActionConstraint = AnyAction | EqAction(eid: string) | InActions(eids: seq<string>)

  datatype Clause = When(e: Expr) | Unless(e: Expr)

  datatype Template = Template(
    id: string,
    permit: bool,
    principal: Constraint,
    action: ActionConstraint,
    resource: Constraint,
    clauses: seq<Clause>,
    annotations: map<string, string>)

  datatype Link = Link(templateId: string, newId: string, values: map<SlotId, EntityUid>)

  datatype PolicySet = PolicySet(templates: map<string, Template>, policies: map<string, Template>, links: seq<Link>)

  function SlotsIn(c: Constraint): set<SlotId> {
    if (c.EqTo? || c.InTarget? || c.IsIn?) && c.target.SlotRef? then {c.target.slot} else {}
  }

  function ClauseSlots(clauses: seq<Clause>): set<SlotId> {
    set c, s | c in clauses && s in SlotsOf(c.e) :: s
  }

  function Slots(t: Template): set<SlotId> {
    SlotsIn(t.principal) + SlotsIn(t.resource) + ClauseSlots(t.clauses)
  }

  function SlotList(t: Template): seq<SlotId> {
    (if PrincipalSlot in Slots(t) then [PrincipalSlot] else []) +
    (if ResourceSlot in Slots(t) then [ResourceSlot] else [])
  }

  // ----- the constraint generators -----

  const MAX_ACTIONS: nat := 3
  const MAX_CLAUSES: nat := 3
  const MAX_ANNOTATIONS: nat := 2

  function ArbitraryEntityOrSlot(slot: Option<SlotId>, u: Unstructured): Drawn<(EntityOrSlot, Unstructured)> {
    if slot.None? then ArbitraryEntity(u)
    else
      var (useSlot, u1) :- ReadFlip(u);
      if useSlot then Ok((SlotRef(slot.value), u1)) else ArbitraryEntity(u1)
  }

  function ArbitraryEntity(u: Unstructured): Drawn<(EntityOrSlot, Unstructured)> {
    var (uid, u1) :- ReadText(u);
    Ok((EntityRef(uid), u1))
  }

  /** `arbitrary_pst_principal_constraint` and `arbitrary_pst_resource_constraint` */
  function ArbitraryConstraint(slot: Option<SlotId>, u: Unstructured): Drawn<(Constraint, Unstructured)> {
    var (any, u1) :- ReadFlip(u);
    if any then Ok((Any, u1))
    else
      var (x, u2) :- ReadIndex(u1, 5);
      if x < 2 then
        var (target, u3) :- ArbitraryEntityOrSlot(slot, u2);
        Ok((EqTo(target), u3))
      else if x < 3 then
        var (target, u3) :- ArbitraryEntityOrSlot(slot, u2);
        Ok((InTarget(target), u3))
      else
        var (ty, u3) :- ReadText(u2);
        if x < 4 then Ok((IsType(ty), u3))
        else
          var (target, u4) :- ArbitraryEntityOrSlot(slot, u3);
          Ok((IsIn(ty, target), u4))
  }

  /** `arbitrary_pst_action_constraint` */
  function ArbitraryAction(u: Unstructured): Drawn<(ActionConstraint, Unstructured)> {
    var (any, u1) :- ReadFlip(u);
    if any then Ok((AnyAction, u1))
    else
      var (one, u2) :- ReadFlip(u1);
      if one then
        var (eid, u3) :- ReadText(u2);
        Ok((EqAction(eid), u3))
      else
        var (eids, u3) :- ArbitraryIds(MAX_ACTIONS, u2);
        Ok((InActions(eids), u3))
  }

  function ArbitraryIds(n: nat, u: Unstructured): (r: Drawn<(seq<string>, Unstructured)>)
    ensures r != Err(TooDeep)
  {
    if n == 0 then Ok(([], u))
    else
      var (more, u1) :- ReadFlip(u);
      if !more then Ok(([], u1))
      else
        var (id, u2) :- ReadText(u1);
        var (rest, u3) :- ArbitraryIds(n - 1, u2);
        Ok(([id] + rest, u3))
  }

  /** `arbitrary_pst_clause` */
  function ArbitraryClause(depth: nat, width: nat, u: Unstructured): Drawn<(Clause, Unstructured)> {
    var (e, u1) :- ArbitraryExpr(depth, width, u);
    var (x, u2) :- ReadIndex(u1, 2);
    Ok((if x == 0 then When(e) else Unless(e), u2))
  }

  function ArbitraryClauses(n: nat, depth: nat, width: nat, u: Unstructured): Drawn<(seq<Clause>, Unstructured)> {
    if n == 0 then Ok(([], u))
    else
      var (more, u1) :- ReadFlip(u);
      if !more then Ok(([], u1))
      else
        var (c, u2) :- ArbitraryClause(depth, width, u1);
        var (rest, u3) :- ArbitraryClauses(n - 1, depth, width, u2);
        Ok(([c] + rest, u3))
  }

  /** At most `n` annotations more, under numbered keys */
  function ArbitraryAnnotations(n: nat, annotations: map<string, string>, u: Unstructured)
    : (r: Drawn<(map<string, string>, Unstructured)>)
    ensures r != Err(TooDeep)
    decreases n
  {
    if n == 0 then Ok((annotations, u))
    else
      var (more, u1) :- ReadFlip(u);
      if !more then Ok((annotations, u1))
      else
        var (text, u2) :- ReadText(u1);
        ArbitraryAnnotations(n - 1, annotations["ann" + Numeral(|annotations|) := text], u2)
  }

  /** Which of the constraints of a template are offered their slot */
  function OfferedSlots(numSlots: nat, u: Unstructured): Drawn<((Option<SlotId>, Option<SlotId>), Unstructured)> {
    if numSlots == 0 then Ok(((None, None), u))
    else if numSlots == 1 then
      var (first, u1) :- ReadFlip(u);
      Ok((if first then (Some(PrincipalSlot), None) else (None, Some(ResourceSlot)), u1))
    else Ok(((Some(PrincipalSlot), Some(ResourceSlot)), u))
  }

  /** The template before its clauses and annotations */
  function ArbitraryHead(numSlots: nat, u: Unstructured): Drawn<(Template, Unstructured)> {
    var ((principalSlot, resourceSlot), u1) :- OfferedSlots(numSlots, u);
    var (id, u2) :- ReadText(u1);
    var (permit, u3) :- ReadFlip(u2);
    var (principal, u4) :- ArbitraryConstraint(principalSlot, u3);
    var (action, u5) :- ArbitraryAction(u4);
    var (resource, u6) :- ArbitraryConstraint(resourceSlot, u5);
    Ok((Template(id, permit, principal, action, resource, [], map[]), u6))
  }

  /** `arbitrary_pst_template_with_slots`, which refuses clauses with slots */
  function ArbitraryTemplate(numSlots: nat, depth: nat, width: nat, u: Unstructured): Drawn<(Template, Unstructured)> {
    var (t, u1) :- ArbitraryHead(numSlots, u);
    var (clauses, u2) :- ArbitraryClauses(MAX_CLAUSES, depth, width, u1);
    if ClauseSlots(clauses) != {} then Err(TooDeep)
    else
      var (annotations, u3) :- ArbitraryAnnotations(MAX_ANNOTATIONS, map[], u2);
      Ok((t.(clauses := clauses, annotations := annotations), u3))
  }

  lemma {:induction false} ClausesSlotFree(n: nat, depth: nat, width: nat, u: Unstructured)
    ensures ArbitraryClauses(n, depth, width, u) != Err(TooDeep)
    ensures ArbitraryClauses(n, depth, width, u).Ok? ==>
              forall c <- ArbitraryClauses(n, depth, width, u).value.0 :: SlotsOf(c.e) == {}
  {
    if n > 0 && ReadFlip(u).Ok? && ReadFlip(u).value.0 {
      var u1 := ReadFlip(u).value.1;
      ExprSlotFree(depth, width, u1);
      if ArbitraryClause(depth, width, u1).Ok? {
        ClausesSlotFree(n - 1, depth, width, ArbitraryClause(depth, width, u1).value.1);
      }
    }
  }

  lemma ConstraintSlots(slot: Option<SlotId>, u: Unstructured)
    ensures ArbitraryConstraint(slot, u).Ok?
            ==> SlotsIn(ArbitraryConstraint(slot, u).value.0) <= (if slot.Some? then {slot.value} else {})
    ensures ArbitraryConstraint(slot, u) != Err(TooDeep)
  {
  }

  lemma HeadSlots(numSlots: nat, u: Unstructured)
    ensures ArbitraryHead(numSlots, u) != Err(TooDeep)
    ensures ArbitraryHead(numSlots, u).Ok? ==>
              var t := ArbitraryHead(numSlots, u).value.0;
              && t.clauses == []
              && SlotsIn(t.principal) <= {PrincipalSlot} && SlotsIn(t.resource) <= {ResourceSlot}
              && (numSlots == 0 ==> SlotsIn(t.principal) == {} && SlotsIn(t.resource) == {})
              && (numSlots == 1 ==> SlotsIn(t.principal) == {} || SlotsIn(t.resource) == {})
  {
    if OfferedSlots(numSlots, u).Ok? {
      var ((principalSlot, resourceSlot), u1) := OfferedSlots(numSlots, u).value;
      if ReadText(u1).Ok? && ReadFlip(ReadText(u1).value.1).Ok? {
        var u3 := ReadFlip(ReadText(u1).value.1).value.1;
        ConstraintSlots(principalSlot, u3);
        if ArbitraryConstraint(principalSlot, u3).Ok? {
          var u4 := ArbitraryConstraint(principalSlot, u3).value.1;
          if ArbitraryAction(u4).Ok? { ConstraintSlots(resourceSlot, ArbitraryAction(u4).value.1); }
        }
      }
    }
  }

  /** The check of the clauses never fails: a generated template has no slot in its clauses, and a
      constraint gets only the slot it was offered: none, or one, or its own of two. */
  lemma TemplateSlots(numSlots: nat, depth: nat, width: nat, u: Unstructured)
    ensures ArbitraryTemplate(numSlots, depth, width, u) != Err(TooDeep)
    ensures ArbitraryTemplate(numSlots, depth, width, u).Ok? ==>
              var t := ArbitraryTemplate(numSlots, depth, width, u).value.0;
              && ClauseSlots(t.clauses) == {}
              && SlotsIn(t.principal) <= {PrincipalSlot} && SlotsIn(t.resource) <= {ResourceSlot}
              && (numSlots == 0 ==> Slots(t) == {})
              && (numSlots == 1 ==> SlotsIn(t.principal) == {} || SlotsIn(t.resource) == {})
  {
    HeadSlots(numSlots, u);
    if ArbitraryHead(numSlots, u).Ok? {
      var u1 := ArbitraryHead(numSlots, u).value.1;
      ClausesSlotFree(MAX_CLAUSES, depth, width, u1);
    }
  }

  // ----- ids -----

  /** `format!("policy{next_id}")` */
  function PolicyId(n: nat): string {
    "policy" + Numeral(n)
  }

  lemma PolicyIdInjective(m: nat, n: nat)
    requires PolicyId(m) == PolicyId(n)
    ensures m == n
  {
    assert PolicyId(m)[6..] == Numeral(m) && PolicyId(n)[6..] == Numeral(n);
    NumeralInjective(m, n);
  }

  type Entries = seq<(string, Template)>

  function EntryNames(entries: Entries): seq<string> {
    seq(|entries|, i requires 0 <= i < |entries| => entries[i].0)
  }

  function EntryIds(entries: Entries): multiset<string> {
    multiset(EntryNames(entries))
  }

  function LinkNames(links: seq<Link>): seq<string> {
    seq(|links|, i requires 0 <= i < |links| => links[i].newId)
  }

  function LinkIds(links: seq<Link>): multiset<string> {
    multiset(LinkNames(links))
  }

  lemma EntryIdsPush(entries: Entries, e: (string, Template))
    ensures EntryIds(entries + [e]) == EntryIds(entries) + multiset{e.0}
  {
    assert EntryNames(entries + [e]) == EntryNames(entries) + [e.0];
  }

  lemma LinkIdsConcat(links: seq<Link>, more: seq<Link>)
    ensures LinkIds(links + more) == LinkIds(links) + LinkIds(more)
  {
    assert LinkNames(links + more) == LinkNames(links) + LinkNames(more);
  }

  /** One of the first `next` fresh ids */
  ghost predicate GivenOut(id: string, next: nat) {
    exists k: nat :: k < next && id == PolicyId(k)
  }

  /** All ids are distinct, and they are among the first `next` fresh ones. */
  ghost predicate FirstIds(ids: multiset<string>, next: nat) {
    forall id :: ids[id] <= 1 && (id in ids ==> GivenOut(id, next))
  }

  lemma NotGivenOut(next: nat)
    ensures !GivenOut(PolicyId(next), next)
  {
    if GivenOut(PolicyId(next), next) {
      var k: nat :| k < next && PolicyId(next) == PolicyId(k);
      PolicyIdInjective(next, k);
    }
  }

  lemma GivenOutLater(id: string, next: nat, next': nat)
    requires GivenOut(id, next) && next <= next'
    ensures GivenOut(id, next')
  {
    var k: nat :| k < next && id == PolicyId(k);
    assert k < next';
  }

  lemma NextIdIsNew(ids: multiset<string>, next: nat)
    requires FirstIds(ids, next)
    ensures FirstIds(ids + multiset{PolicyId(next)}, next + 1)
  {
    NotGivenOut(next);
    assert next < next + 1 && GivenOut(PolicyId(next), next + 1);
    forall id | id in ids
      ensures GivenOut(id, next + 1)
    {
      GivenOutLater(id, next, next + 1);
    }
  }

  /** Collecting entries into a map */
  function ToMap(entries: Entries): map<string, Template> {
    if entries == [] then map[]
    else ToMap(entries[..|entries| - 1])[entries[|entries| - 1].0 := entries[|entries| - 1].1]
  }

  /** With distinct ids, collecting drops nothing. */
  lemma {:induction false} ToMapKeepsAll(entries: Entries)
    requires forall id :: EntryIds(entries)[id] <= 1
    ensures forall id :: id in ToMap(entries) <==> id in EntryIds(entries)
    ensures |ToMap(entries)| == |entries|
    ensures forall e <- entries :: e.0 in ToMap(entries) && ToMap(entries)[e.0] == e.1
    decreases |entries|
  {
    if entries != [] {
      var before, last := entries[..|entries| - 1], entries[|entries| - 1];
      assert entries == before + [last];
      EntryIdsPush(before, last);
      forall id
        ensures EntryIds(before)[id] <= 1
      {
        assert EntryIds(entries)[id] <= 1;
      }
      ToMapKeepsAll(before);
      assert EntryIds(entries)[last.0] <= 1;
      assert last.0 !in ToMap(before);
      assert ToMap(entries).Keys == ToMap(before).Keys + {last.0};
      forall e | e in entries
        ensures e.0 in ToMap(entries) && ToMap(entries)[e.0] == e.1
      {
        if e != last {
          assert e in before;
          assert e.0 in ToMap(before);
        }
      }
    }
  }

  // ----- what a run draws, and what is made of it -----

  /** A template, and the values of each of its links */
  datatype Group = Group(template: Template, values: seq<map<SlotId, EntityUid>>)

  /** Everything drawn, before ids are given out */
  datatype Plan = Plan(groups: seq<Group>, statics: seq<Template>)

  function DrawValues(slots: seq<SlotId>, values: map<SlotId, EntityUid>, u: Unstructured)
    : (r: Drawn<(map<SlotId, EntityUid>, Unstructured)>)
    ensures r != Err(TooDeep)
    decreases slots
  {
    if slots == [] then Ok((values, u))
    else
      var (uid, u1) :- ReadText(u);
      DrawValues(slots[1..], values[slots[0] := uid], u1)
  }

  /** `drawn`, and `n` more */
  function DrawMany<T>(draw: Draw<T>, n: nat, drawn: seq<T>, u: Unstructured): (r: Drawn<(seq<T>, Unstructured)>)
    ensures r.Ok? ==> |r.value.0| == |drawn| + n
    decreases n
  {
    if n == 0 then Ok((drawn, u))
    else
      var (one, u1) :- draw(u);
      DrawMany(draw, n - 1, drawn + [one], u1)
  }

  /** What is left to draw leads to `all`. */
  ghost predicate Leads<T>(
      all: Drawn<(seq<T>, Unstructured)>, draw: Draw<T>, n: nat, drawn: seq<T>, u: Unstructured)
  {
    all == DrawMany(draw, n, drawn, u)
  }

  lemma NextDrawn<T>(all: Drawn<(seq<T>, Unstructured)>, draw: Draw<T>, n: nat, drawn: seq<T>, u: Unstructured)
    requires n > 0 && Leads(all, draw, n, drawn, u)
    ensures match draw(u)
            case Err(e) => all == Err(e)
            case Ok(one) => Leads(all, draw, n - 1, drawn + [one.0], one.1)
  {
  }

  function ValuesFor(slots: seq<SlotId>): Draw<map<SlotId, EntityUid>> {
    u => DrawValues(slots, map[], u)
  }

  function LinksDrawn(slots: seq<SlotId>, u: Unstructured): (r: Drawn<(seq<map<SlotId, EntityUid>>, Unstructured)>)
    ensures r.Ok? ==> ReadIndex(u, 3).Ok? && |r.value.0| == ReadIndex(u, 3).value.0
  {
    var (numLinks, u1) :- ReadIndex(u, 3);
    DrawMany(ValuesFor(slots), numLinks, [], u1)
  }

  /** A template that took none of the slots offered gets one for its principal. */
  function WithSlot(t: Template): (r: Template)
    ensures Slots(r) != {}
  {
    if Slots(t) != {} then t
    else
      var r := t.(principal := EqTo(SlotRef(PrincipalSlot)));
      assert PrincipalSlot in Slots(r);
      r
  }

  function DrawSlotted(depth: nat, width: nat, u: Unstructured): (r: Drawn<(Template, Unstructured)>)
    ensures r.Ok? ==> Slots(r.value.0) != {}
  {
    var (numSlots, u1) :- ReadIndex(u, 2);
    var (template, u2) :- ArbitraryTemplate(numSlots + 1, depth, width, u1);
    Ok((WithSlot(template), u2))
  }

  function DrawGroup(depth: nat, width: nat, u: Unstructured): Drawn<(Group, Unstructured)> {
    var (template, u1) :- DrawSlotted(depth, width, u);
    var (values, u2) :- LinksDrawn(SlotList(template), u1);
    Ok((Group(template, values), u2))
  }

  function Groups(depth: nat, width: nat): Draw<Group> {
    u => DrawGroup(depth, width, u)
  }

  function DrawStatic(depth: nat, width: nat, u: Unstructured): Drawn<(Template, Unstructured)> {
    var (t, u1) :- ArbitraryTemplate(0, depth, width, u);
    if Slots(t) != {} then Err(TooDeep) else Ok((t, u1))
  }

  function Statics(depth: nat, width: nat): Draw<Template> {
    u => DrawStatic(depth, width, u)
  }

  function DrawPlan(depth: nat, width: nat, u: Unstructured): (r: Drawn<(Plan, Unstructured)>)
    ensures r.Ok? ==> ReadIndex(u, 4).Ok? && |r.value.0.groups| == ReadIndex(u, 4).value.0
  {
    var (numTemplates, u1) :- ReadIndex(u, 4);
    var (groups, u2) :- DrawMany(Groups(depth, width), numTemplates, [], u1);
    var (numStatic, u3) :- ReadIndex(u2, 4);
    var (statics, u4) :- DrawMany(Statics(depth, width), numStatic, [], u3);
    Ok((Plan(groups, statics), u4))
  }

  /** How many ids the groups take: one for each template and one for each link */
  function IdsTaken(groups: seq<Group>): nat {
    if groups == [] then 0 else IdsTaken(groups[..|groups| - 1]) + 1 + |groups[|groups| - 1].values|
  }

  function Renamed(t: Template, n: nat): (string, Template) {
    (PolicyId(n), t.(id := PolicyId(n)))
  }

  function TemplatesOf(groups: seq<Group>): Entries {
    if groups == [] then []
    else
      var n := |groups| - 1;
      TemplatesOf(groups[..n]) + [Renamed(groups[n].template, IdsTaken(groups[..n]))]
  }

  /** The links of one template, under the next ids */
  function LinksOfOne(templateId: string, values: seq<map<SlotId, EntityUid>>, next: nat): seq<Link> {
    seq(|values|, k requires 0 <= k < |values| => Link(templateId, PolicyId(next + k), values[k]))
  }

  function LinksOf(groups: seq<Group>): seq<Link> {
    if groups == [] then []
    else
      var n := |groups| - 1;
      var next := IdsTaken(groups[..n]);
      LinksOf(groups[..n]) + LinksOfOne(PolicyId(next), groups[n].values, next + 1)
  }

  function StaticsOf(statics: seq<Template>, next: nat): Entries {
    seq(|statics|, j requires 0 <= j < |statics| => Renamed(statics[j], next + j))
  }

  function Assemble(plan: Plan): PolicySet {
    PolicySet(ToMap(TemplatesOf(plan.groups)), ToMap(StaticsOf(plan.statics, IdsTaken(plan.groups))),
              LinksOf(plan.groups))
  }

  function PolicySetRun(depth: nat, width: nat, u: Unstructured): Drawn<(PolicySet, Unstructured)> {
    var (plan, u1) :- DrawPlan(depth, width, u);
    Ok((Assemble(plan), u1))
  }

  lemma PushGroup(groups: seq<Group>, g: Group)
    ensures IdsTaken(groups + [g]) == IdsTaken(groups) + 1 + |g.values|
    ensures TemplatesOf(groups + [g]) == TemplatesOf(groups) + [Renamed(g.template, IdsTaken(groups))]
    ensures LinksOf(groups + [g])
         == LinksOf(groups) + LinksOfOne(PolicyId(IdsTaken(groups)), g.values, IdsTaken(groups) + 1)
  {
    var all := groups + [g];
    assert all[..|groups|] == groups && all[|groups|] == g && |all| == |groups| + 1;
  }

  // ----- the policy set generator -----

  ghost predicate SlottedEntries(templates: Entries) {
    forall e <- templates :: Slots(e.1) != {} && e.1.id == e.0
  }

  ghost predicate StaticEntries(policies: Entries) {
    forall e <- policies :: Slots(e.1) == {} && e.1.id == e.0
  }

  /** Every link names a template and binds exactly its slots. */
  ghost predicate LinksFit(templates: Entries, links: seq<Link>) {
    forall l <- links :: exists e <- templates :: e.0 == l.templateId && l.values.Keys == Slots(e.1)
  }

  lemma LinksStillFit(templates: Entries, links: seq<Link>, e: (string, Template))
    requires LinksFit(templates, links)
    ensures LinksFit(templates + [e], links)
  {
  }

  lemma SlotListed(t: Template)
    ensures (set s | s in SlotList(t)) == Slots(t)
  {
    forall s: SlotId
      ensures s in SlotList(t) <==> s in Slots(t)
    {
      match s case PrincipalSlot => case ResourceSlot =>
    }
  }

  /** One uid for each slot of a template */
  method ArbitraryValues(slots: seq<SlotId>, u: Unstructured)
    returns (r: Drawn<(map<SlotId, EntityUid>, Unstructured)>)
    ensures r == DrawValues(slots, map[], u)
    ensures r.Ok? ==> r.value.0.Keys == set s | s in slots
  {
    var values, rest := map[], u;
    for i := 0 to |slots|
      invariant forall s :: s in values <==> s in slots[..i]
      invariant DrawValues(slots, map[], u) == DrawValues(slots[i..], values, rest)
    {
      var uid :- ReadText(rest);
      values, rest := values[slots[i] := uid.0], uid.1;
      assert slots[..i + 1] == slots[..i] + [slots[i]] && slots[i..][1..] == slots[i + 1..];
    }
    assert slots[..|slots|] == slots && slots[|slots|..] == [];
    r := Ok((values, rest));
  }

  lemma SameSlots(t: Template, id: string)
    ensures Slots(t.(id := id)) == Slots(t) && SlotList(t.(id := id)) == SlotList(t)
  {
  }

  /** A template with one or two slots offered; when it took none, its principal gets one. */
  method ArbitrarySlotted(id: string, depth: nat, width: nat, u: Unstructured)
    returns (r: Drawn<(Template, Unstructured)>)
    ensures var drawn := DrawSlotted(depth, width, u);
            if r.Err? then drawn == Err(r.error)
            else drawn.Ok? && r.value == (drawn.value.0.(id := id), drawn.value.1)
    ensures r.Ok? ==> r.value.0.id == id && Slots(r.value.0) != {}
    ensures r != Err(TooDeep)
  {
    var numSlots :- ReadIndex(u, 2);
    TemplateSlots(numSlots.0 + 1, depth, width, numSlots.1);
    var generated :- ArbitraryTemplate(numSlots.0 + 1, depth, width, numSlots.1);
    var template := generated.0.(id := id);
    SameSlots(generated.0, id);
    if Slots(template) == {} {
      template := template.(principal := EqTo(SlotRef(PrincipalSlot)));
      assert PrincipalSlot in Slots(template);
    }
    r := Ok((template, generated.1));
  }

  /** The state of the generator between two steps */
  ghost predicate Generated(templates: Entries, links: seq<Link>, policies: Entries, next: nat) {
    && FirstIds(EntryIds(templates) + LinkIds(links) + EntryIds(policies), next)
    && SlottedEntries(templates) && StaticEntries(policies) && LinksFit(templates, links)
  }

  lemma PushTemplate(templates: Entries, links: seq<Link>, next: nat, t: Template)
    requires Generated(templates, links, [], next) && t.id == PolicyId(next) && Slots(t) != {}
    ensures Generated(templates + [(t.id, t)], links, [], next + 1)
  {
    var more := templates + [(t.id, t)];
    EntryIdsPush(templates, (t.id, t));
    var ids := EntryIds(templates) + LinkIds(links) + EntryIds([]);
    NextIdIsNew(ids, next);
    assert EntryIds(more) + LinkIds(links) + EntryIds([]) == ids + multiset{PolicyId(next)};
    LinksStillFit(templates, links, (t.id, t));
  }

  lemma PushPolicy(templates: Entries, links: seq<Link>, policies: Entries, next: nat, t: Template)
    requires Generated(templates, links, policies, next) && t.id == PolicyId(next) && Slots(t) == {}
    ensures Generated(templates, links, policies + [(t.id, t)], next + 1)
  {
    var more := policies + [(t.id, t)];
    EntryIdsPush(policies, (t.id, t));
    var ids := EntryIds(templates) + LinkIds(links) + EntryIds(policies);
    NextIdIsNew(ids, next);
    assert EntryIds(templates) + LinkIds(links) + EntryIds(more) == ids + multiset{PolicyId(next)};
  }

  /** Values for exactly these slots */
  ghost predicate AllBind(drawn: seq<map<SlotId, EntityUid>>, slots: seq<SlotId>) {
    forall v <- drawn :: v.Keys == set s | s in slots
  }

  lemma AllBindPush(drawn: seq<map<SlotId, EntityUid>>, slots: seq<SlotId>, values: map<SlotId, EntityUid>)
    requires AllBind(drawn, slots) && values.Keys == set s | s in slots
    ensures AllBind(drawn + [values], slots)
  {
  }

  /** The links drawn for a template, under the ids from `next` on */
  ghost predicate LinksMade(
      templateId: string, slots: seq<SlotId>, next: nat, drawn: seq<map<SlotId, EntityUid>>, links: seq<Link>)
  {
    AllBind(drawn, slots) && links == LinksOfOne(templateId, drawn, next)
  }

  lemma PushDrawn(
      templateId: string, slots: seq<SlotId>, next: nat, drawn: seq<map<SlotId, EntityUid>>, links: seq<Link>,
      values: map<SlotId, EntityUid>)
    requires LinksMade(templateId, slots, next, drawn, links) && values.Keys == set s | s in slots
    ensures LinksMade(templateId, slots, next, drawn + [values],
                      links + [Link(templateId, PolicyId(next + |links|), values)])
  {
    AllBindPush(drawn, slots, values);
  }

  /** The next `n` fresh ids */
  function NextIds(next: nat, n: nat): seq<string> {
    seq(n, i requires 0 <= i < n => PolicyId(next + i))
  }

  lemma NextIdsPush(ids: multiset<string>, next: nat, n: nat)
    requires FirstIds(ids + multiset(NextIds(next, n)), next + n)
    ensures FirstIds(ids + multiset(NextIds(next, n + 1)), next + (n + 1))
  {
    var before := ids + multiset(NextIds(next, n));
    assert NextIds(next, n + 1) == NextIds(next, n) + [PolicyId(next + n)];
    assert ids + multiset(NextIds(next, n + 1)) == before + multiset{PolicyId(next + n)};
    NextIdIsNew(before, next + n);
  }

  lemma {:induction false} NextIdsAreNew(ids: multiset<string>, next: nat, n: nat)
    requires FirstIds(ids, next)
    ensures FirstIds(ids + multiset(NextIds(next, n)), next + n)
    decreases n
  {
    if n == 0 {
      assert ids + multiset(NextIds(next, n)) == ids;
    } else {
      NextIdsAreNew(ids, next, n - 1);
      NextIdsPush(ids, next, n - 1);
    }
  }

  lemma LinkIdsKeep(
      templates: Entries, links: seq<Link>, next: nat, templateId: string, drawn: seq<map<SlotId, EntityUid>>)
    requires FirstIds(EntryIds(templates) + LinkIds(links) + EntryIds([]), next)
    ensures FirstIds(EntryIds(templates) + LinkIds(links + LinksOfOne(templateId, drawn, next)) + EntryIds([]),
                     next + |drawn|)
  {
    var ids, added := EntryIds(templates) + LinkIds(links) + EntryIds([]), LinksOfOne(templateId, drawn, next);
    LinkIdsConcat(links, added);
    assert LinkNames(added) == NextIds(next, |drawn|);
    NextIdsAreNew(ids, next, |drawn|);
    assert EntryIds(templates) + (LinkIds(links) + LinkIds(added)) + EntryIds([]) == ids + LinkIds(added);
  }

  /** Links that bind exactly the slots of their template fit. */
  lemma LinksKeep(
      t: Template, slots: seq<SlotId>, templates: Entries, links: seq<Link>, next: nat,
      drawn: seq<map<SlotId, EntityUid>>)
    requires Generated(templates, links, [], next) && (t.id, t) in templates
    requires Slots(t) == (set s | s in slots) && AllBind(drawn, slots)
    ensures Generated(templates, links + LinksOfOne(t.id, drawn, next), [], next + |drawn|)
  {
    LinkIdsKeep(templates, links, next, t.id, drawn);
    MoreLinksFit(t, slots, templates, links, LinksOfOne(t.id, drawn, next));
  }

  lemma MoreLinksFit(
      t: Template, slots: seq<SlotId>, templates: Entries, links: seq<Link>, more: seq<Link>)
    requires LinksFit(templates, links) && (t.id, t) in templates && Slots(t) == (set s | s in slots)
    requires forall l <- more :: l.templateId == t.id && l.values.Keys == set s | s in slots
    ensures LinksFit(templates, links + more)
  {
  }

  ghost predicate LinksAdded(
      templateId: string, slots: seq<SlotId>, next: nat, u: Unstructured, r: Drawn<Unstructured>, links: seq<Link>)
  {
    var drawn := LinksDrawn(slots, u);
    if r.Err? then drawn == Err(r.error)
    else drawn.Ok? && drawn.value.1 == r.value && LinksMade(templateId, slots, next, drawn.value.0, links)
  }

  /** Up to two links for a template */
  method ArbitraryLinks(templateId: string, slots: seq<SlotId>, next: nat, u: Unstructured)
    returns (r: Drawn<Unstructured>, links: seq<Link>)
    ensures LinksAdded(templateId, slots, next, u, r, links)
    ensures r != Err(TooDeep)
  {
    links := [];
    var numLinks :- ReadIndex(u, 3);
    var rest := numLinks.1;
    ghost var draw, drawn: seq<map<SlotId, EntityUid>> := ValuesFor(slots), [];
    ghost var all, left := DrawMany(draw, numLinks.0, drawn, rest), numLinks.0;
    for k := 0 to numLinks.0
      invariant LinksMade(templateId, slots, next, drawn, links)
      invariant left == numLinks.0 - k && Leads(all, draw, left, drawn, rest)
    {
      NextDrawn(all, draw, left, drawn, rest);
      var values :- ArbitraryValues(slots, rest);
      rest := values.1;
      PushDrawn(templateId, slots, next, drawn, links, values.0);
      drawn, left := drawn + [values.0], left - 1;
      links := links + [Link(templateId, PolicyId(next + |links|), values.0)];
    }
    r := Ok(rest);
  }

  /** The templates and links of some groups, and how many ids they took */
  ghost predicate GroupsMade(groups: seq<Group>, templates: Entries, links: seq<Link>, next: nat) {
    OfGroups(groups, templates, links, next) && Generated(templates, links, [], next)
  }

  ghost predicate OfGroups(groups: seq<Group>, templates: Entries, links: seq<Link>, next: nat) {
    templates == TemplatesOf(groups) && links == LinksOf(groups) && next == IdsTaken(groups)
  }

  lemma PushOfGroups(groups: seq<Group>, templates: Entries, links: seq<Link>, next: nat, g: Group)
    requires OfGroups(groups, templates, links, next)
    ensures OfGroups(groups + [g], templates + [Renamed(g.template, next)],
                     links + LinksOfOne(PolicyId(next), g.values, next + 1), next + 1 + |g.values|)
  {
    PushGroup(groups, g);
  }

  lemma PushGenerated(
      templates: Entries, links: seq<Link>, next: nat, t: Template, slots: seq<SlotId>,
      values: seq<map<SlotId, EntityUid>>)
    requires Generated(templates, links, [], next) && t.id == PolicyId(next) && Slots(t) != {}
    requires slots == SlotList(t) && AllBind(values, slots)
    ensures Generated(templates + [(t.id, t)], links + LinksOfOne(t.id, values, next + 1), [],
                      next + 1 + |values|)
  {
    SlotListed(t);
    PushTemplate(templates, links, next, t);
    assert (t.id, t) in templates + [(t.id, t)];
    LinksKeep(t, slots, templates + [(t.id, t)], links, next + 1, values);
  }

  lemma PushMade(groups: seq<Group>, templates: Entries, links: seq<Link>, next: nat, g: Group, links': seq<Link>)
    requires GroupsMade(groups, templates, links, next) && Slots(g.template) != {}
    requires LinksMade(PolicyId(next), SlotList(g.template), next + 1, g.values, links')
    ensures GroupsMade(groups + [g], templates + [Renamed(g.template, next)], links + links', next + 1 + |links'|)
  {
    SameSlots(g.template, PolicyId(next));
    PushGenerated(templates, links, next, g.template.(id := PolicyId(next)), SlotList(g.template), g.values);
    PushOfGroups(groups, templates, links, next, g);
  }

  ghost predicate GroupAdded(
      depth: nat, width: nat, u: Unstructured, groups: seq<Group>, r: Drawn<Unstructured>, templates': Entries,
      links': seq<Link>, next': nat)
  {
    var drawn := DrawGroup(depth, width, u);
    if r.Err? then drawn == Err(r.error)
    else
      drawn.Ok? && drawn.value.1 == r.value && GroupsMade(groups + [drawn.value.0], templates', links', next')
  }

  lemma GroupDone(
      depth: nat, width: nat, u: Unstructured, groups: seq<Group>, templates: Entries, links: seq<Link>, next: nat,
      drawn: Template, rest: Unstructured, r: Drawn<Unstructured>, links': seq<Link>)
    requires GroupsMade(groups, templates, links, next) && DrawSlotted(depth, width, u) == Ok((drawn, rest))
    requires LinksAdded(PolicyId(next), SlotList(drawn), next + 1, rest, r, links')
    ensures GroupAdded(depth, width, u, groups, r, templates + [Renamed(drawn, next)], links + links',
                       next + 1 + |links'|)
  {
    if r.Ok? {
      PushMade(groups, templates, links, next, Group(drawn, LinksDrawn(SlotList(drawn), rest).value.0), links');
    }
  }

  lemma GroupFails(
      all: Drawn<(seq<Group>, Unstructured)>, depth: nat, width: nat, n: nat, groups: seq<Group>, u: Unstructured,
      r: Drawn<Unstructured>, templates': Entries, links': seq<Link>, next': nat)
    requires n > 0 && Leads(all, Groups(depth, width), n, groups, u)
    requires GroupAdded(depth, width, u, groups, r, templates', links', next')
    ensures r.Err? ==> all == Err(r.error)
  {
    NextDrawn(all, Groups(depth, width), n, groups, u);
  }

  lemma GroupStep(
      all: Drawn<(seq<Group>, Unstructured)>, depth: nat, width: nat, n: nat, groups: seq<Group>, u: Unstructured,
      rest: Unstructured, templates': Entries, links': seq<Link>, next': nat)
    returns (g: Group)
    requires n > 0 && Leads(all, Groups(depth, width), n, groups, u)
    requires GroupAdded(depth, width, u, groups, Ok(rest), templates', links', next')
    ensures Leads(all, Groups(depth, width), n - 1, groups + [g], rest)
    ensures GroupsMade(groups + [g], templates', links', next')
  {
    NextDrawn(all, Groups(depth, width), n, groups, u);
    g := DrawGroup(depth, width, u).value.0;
  }

  /** A template, and its links */
  method ArbitraryGroup(
      depth: nat, width: nat, u: Unstructured, ghost groups: seq<Group>, templates: Entries, links: seq<Link>,
      next: nat)
    returns (r: Drawn<Unstructured>, templates': Entries, links': seq<Link>, next': nat)
    requires GroupsMade(groups, templates, links, next)
    ensures GroupAdded(depth, width, u, groups, r, templates', links', next')
    ensures r != Err(TooDeep)
  {
    templates', links', next' := templates, links, next;
    var template :- ArbitrarySlotted(PolicyId(next), depth, width, u);
    var t := template.0;
    ghost var drawn := DrawSlotted(depth, width, u).value.0;
    SameSlots(drawn, t.id);
    var added;
    r, added := ArbitraryLinks(t.id, SlotList(t), next + 1, template.1);
    GroupDone(depth, width, u, groups, templates, links, next, drawn, template.1, r, added);
    templates', links', next' := templates + [(t.id, t)], links + added, next + 1 + |added|;
  }

  /** The templates, each with its links */
  method ArbitraryGroups(n: nat, depth: nat, width: nat, u: Unstructured)
    returns (r: Drawn<Unstructured>, templates: Entries, links: seq<Link>, next: nat)
    ensures var drawn := DrawMany(Groups(depth, width), n, [], u);
            if r.Err? then drawn == Err(r.error)
            else drawn.Ok? && drawn.value.1 == r.value && GroupsMade(drawn.value.0, templates, links, next)
    ensures r != Err(TooDeep)
  {
    templates, links, next := [], [], 0;
    var rest := u;
    ghost var draw, groups: seq<Group> := Groups(depth, width), [];
    ghost var all, left := DrawMany(draw, n, groups, rest), n;
    for i := 0 to n
      invariant GroupsMade(groups, templates, links, next)
      invariant left == n - i && Leads(all, draw, left, groups, rest)
    {
      ghost var before := rest;
      var one: Drawn<Unstructured>;
      one, templates, links, next := ArbitraryGroup(depth, width, rest, groups, templates, links, next);
      GroupFails(all, depth, width, left, groups, before, one, templates, links, next);
      rest :- one;
      ghost var g := GroupStep(all, depth, width, left, groups, before, rest, templates, links, next);
      groups, left := groups + [g], left - 1;
    }
    r := Ok(rest);
  }

  ghost predicate StaticsMade(
      templates: Entries, links: seq<Link>, taken: nat, statics: seq<Template>, policies: Entries, next: nat)
  {
    policies == StaticsOf(statics, taken) && next == taken + |statics| && Generated(templates, links, policies, next)
  }

  lemma PushStatic(
      templates: Entries, links: seq<Link>, taken: nat, statics: seq<Template>, policies: Entries, next: nat,
      t: Template)
    requires StaticsMade(templates, links, taken, statics, policies, next) && Slots(t) == {}
    ensures StaticsMade(templates, links, taken, statics + [t], policies + [Renamed(t, next)], next + 1)
  {
    SameSlots(t, PolicyId(next));
    PushPolicy(templates, links, policies, next, t.(id := PolicyId(next)));
    assert StaticsOf(statics + [t], taken) == StaticsOf(statics, taken) + [Renamed(t, next)];
  }

  ghost predicate StaticAdded(
      next: nat, depth: nat, width: nat, u: Unstructured, r: Drawn<(Template, Unstructured)>)
  {
    var drawn := DrawStatic(depth, width, u);
    if r.Err? then drawn == Err(r.error)
    else
      && drawn.Ok? && r.value == (drawn.value.0.(id := PolicyId(next)), drawn.value.1)
      && Slots(drawn.value.0) == {}
  }

  /** One static policy; the conversion that would fail on a template with slots never does. */
  method ArbitraryStatic(next: nat, depth: nat, width: nat, u: Unstructured)
    returns (r: Drawn<(Template, Unstructured)>)
    ensures StaticAdded(next, depth, width, u, r)
    ensures r != Err(TooDeep)
  {
    TemplateSlots(0, depth, width, u);
    var template :- ArbitraryTemplate(0, depth, width, u);
    SameSlots(template.0, PolicyId(next));
    var t := template.0.(id := PolicyId(next));
    if Slots(t) != {} {
      return Err(TooDeep);
    }
    r := Ok((t, template.1));
  }

  method ArbitraryStatics(
      n: nat, depth: nat, width: nat, u: Unstructured, ghost templates: Entries, ghost links: seq<Link>, taken: nat)
    returns (r: Drawn<Unstructured>, policies: Entries, next: nat)
    requires Generated(templates, links, [], taken)
    ensures var drawn := DrawMany(Statics(depth, width), n, [], u);
            if r.Err? then drawn == Err(r.error)
            else drawn.Ok? && drawn.value.1 == r.value
                 && StaticsMade(templates, links, taken, drawn.value.0, policies, next)
    ensures r != Err(TooDeep)
  {
    policies, next := [], taken;
    var rest := u;
    ghost var draw, statics: seq<Template> := Statics(depth, width), [];
    ghost var all, left := DrawMany(draw, n, statics, rest), n;
    for i := 0 to n
      invariant StaticsMade(templates, links, taken, statics, policies, next)
      invariant left == n - i && Leads(all, draw, left, statics, rest)
    {
      NextDrawn(all, draw, left, statics, rest);
      ghost var drawn := DrawStatic(depth, width, rest);
      var one :- ArbitraryStatic(next, depth, width, rest);
      rest := one.1;
      PushStatic(templates, links, taken, statics, policies, next, drawn.value.0);
      statics, left := statics + [drawn.value.0], left - 1;
      policies, next := policies + [(one.0.id, one.0)], next + 1;
    }
    r := Ok(rest);
  }

  /** What every generated set satisfies */
  ghost predicate WellFormed(ps: PolicySet) {
    && (forall id :: id in ps.templates ==> ps.templates[id].id == id && Slots(ps.templates[id]) != {})
    && (forall id :: id in ps.policies ==> ps.policies[id].id == id && Slots(ps.policies[id]) == {})
    && ps.templates.Keys !! ps.policies.Keys
    && (forall id :: LinkIds(ps.links)[id] <= 1)
    && (forall id :: id in LinkIds(ps.links) ==> id !in ps.templates && id !in ps.policies)
    && (forall l <- ps.links :: l.templateId in ps.templates && l.values.Keys == Slots(ps.templates[l.templateId]))
  }

  lemma CollectedIsWellFormed(templates: Entries, links: seq<Link>, policies: Entries, next: nat)
    requires Generated(templates, links, policies, next)
    ensures WellFormed(PolicySet(ToMap(templates), ToMap(policies), links))
    ensures |ToMap(templates)| == |templates| && |ToMap(policies)| == |policies|
  {
    var ids := EntryIds(templates) + LinkIds(links) + EntryIds(policies);
    forall id
      ensures EntryIds(templates)[id] + LinkIds(links)[id] + EntryIds(policies)[id] <= 1
    {
      assert ids[id] <= 1;
    }
    ToMapKeepsAll(templates);
    ToMapKeepsAll(policies);
    ToMapFrom(templates);
    ToMapFrom(policies);
  }

  lemma {:induction false} ToMapFrom(entries: Entries)
    ensures forall id :: id in ToMap(entries) ==> (id, ToMap(entries)[id]) in entries
    decreases |entries|
  {
    if entries != [] { ToMapFrom(entries[..|entries| - 1]); }
  }

  /** `arbitrary_pst_policy_set` */
  method ArbitraryPolicySet(depth: nat, width: nat, u: Unstructured) returns (r: Drawn<(PolicySet, Unstructured)>)
    ensures r == PolicySetRun(depth, width, u)
    ensures r.Ok? ==> WellFormed(r.value.0)
    ensures r != Err(TooDeep)
  {
    var numTemplates :- ReadIndex(u, 4);
    var grouped, templates, links, next := ArbitraryGroups(numTemplates.0, depth, width, numTemplates.1);
    var rest :- grouped;
    var numStatic :- ReadIndex(rest, 4);
    var converted, policies, used := ArbitraryStatics(numStatic.0, depth, width, numStatic.1, templates, links, next);
    rest :- converted;
    CollectedIsWellFormed(templates, links, policies, used);
    r := Ok((PolicySet(ToMap(templates), ToMap(policies), links), rest));
  }
}

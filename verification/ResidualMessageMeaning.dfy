/** What residual messages mean: an evaluator by tag, and that a message has the value of its residual. */
module ResidualMessageMeaning {
  import opened Wrappers
  import opened Residuals
  import opened ResidualMessages

  /** A message with the wrong number of children, or without the field its tag uses, is an error. */
  function EvalMessage(s: Semantics, m: Message): Option<Value>
    decreases m
  {
    ByTag(s, m, EvalMessages(s, m.children))
  }

  function EvalMessages(s: Semantics, ms: seq<Message>): seq<Option<Value>>
    decreases ms
  {
    if ms == [] then [] else [EvalMessage(s, ms[0])] + EvalMessages(s, ms[1..])
  }

  /** The value of a message by its tag, given the values of its children */
  function ByTag(s: Semantics, m: Message, c: seq<Option<Value>>): Option<Value> {
    match m.tag
    case TagError => None
    case TagVal => m.val
    case TagVar => Some(s.vars(m.x))
    case TagIte => if |c| == 3 then Conditional(c[0], c[1], c[2]) else None
    case TagAnd => if |c| == 2 then Conditional(c[0], Boolean(c[1]), Some(BoolValue(false))) else None
    case TagOr => if |c| == 2 then Conditional(c[0], Some(BoolValue(true)), Boolean(c[1])) else None
    case TagUnaryApp => if |c| == 1 then Strict(s, Unary(m.uop), c) else None
    case TagBinaryApp => if |c| == 2 then Strict(s, Binary(m.bop), c) else None
    case TagGetAttr => if |c| == 1 then Strict(s, Get(m.attr), c) else None
    case TagHasAttr => if |c| == 1 then Strict(s, Has(m.attr), c) else None
    case TagExtHasAttr => if |c| == 1 then Strict(s, ExtHas(m.attrs), c) else None
    case TagLike => if |c| == 1 then Strict(s, Matches(m.pattern), c) else None
    case TagIs => if |c| == 1 && m.entityType.Some? then Strict(s, IsType(m.entityType.value), c) else None
    case TagSet => Strict(s, MakeSet, c)
    case TagRecord => Strict(s, MakeRecord(m.fieldNames), c)
    case TagCall => if m.fnName.Some? then Strict(s, Call(m.fnName.value), c) else None
  }

  // ----- a residual and its message -----

  lemma {:induction false} ChildrenValues(s: Semantics, rs: seq<Residual>)
    ensures EvalMessages(s, AllFromInner(rs)) == EvalResiduals(s, rs)
    decreases rs
  {
    if rs != [] {
      MessageKeepsValue(s, rs[0]);
      ChildrenValues(s, rs[1..]);
      assert AllFromInner(rs)[1..] == AllFromInner(rs[1..]);
    }
  }

  lemma OneValue(s: Semantics, m: Message)
    ensures EvalMessages(s, [m]) == [EvalMessage(s, m)]
  {
    var none: seq<Message> := [];
    assert [m][1..] == none && EvalMessages(s, none) == [];
  }

  lemma TwoValues(s: Semantics, m1: Message, m2: Message)
    ensures EvalMessages(s, [m1, m2]) == [EvalMessage(s, m1), EvalMessage(s, m2)]
  {
    OneValue(s, m2);
    assert [m1, m2][1..] == [m2];
  }

  lemma ThreeValues(s: Semantics, m1: Message, m2: Message, m3: Message)
    ensures EvalMessages(s, [m1, m2, m3]) == [EvalMessage(s, m1), EvalMessage(s, m2), EvalMessage(s, m3)]
  {
    TwoValues(s, m2, m3);
    assert [m1, m2, m3][1..] == [m2, m3];
  }

  /** For every semantics, a message has the value of the residual that was sent. */
  lemma {:induction false} MessageKeepsValue(s: Semantics, r: Residual)
    ensures EvalMessage(s, FromInner(r)) == EvalResidual(s, r)
    decreases r, 1
  {
    if HasOneChild(r) {
      OneChildValue(s, r);
    } else if HasItemChildren(r) {
      ItemValues(s, r);
    } else if r.Partial? && !r.kind.KVar? {
      SeveralValues(s, r);
    }
  }

  predicate HasItemChildren(r: Residual) {
    r.Partial? && (r.kind.KSet? || r.kind.KRecord? || r.kind.KExtCall?)
  }

  lemma {:induction false} ItemValues(s: Semantics, r: Residual)
    requires HasItemChildren(r)
    ensures EvalMessage(s, FromInner(r)) == EvalResidual(s, r)
    decreases r, 0
  {
    ChildrenValues(s, r.kind.items);
    ItemMessages(r);
    ItemsByTag(s, r, EvalResiduals(s, r.kind.items));
  }

  lemma ItemMessages(r: Residual)
    requires HasItemChildren(r)
    ensures FromInner(r).children == AllFromInner(r.kind.items)
  {
  }

  lemma ItemsByTag(s: Semantics, r: Residual, c: seq<Option<Value>>)
    requires HasItemChildren(r) && c == EvalResiduals(s, r.kind.items)
    ensures ByTag(s, FromInner(r), c) == EvalResidual(s, r)
  {
  }

  lemma {:induction false} OneChildValue(s: Semantics, r: Residual)
    requires HasOneChild(r)
    ensures EvalMessage(s, FromInner(r)) == EvalResidual(s, r)
    decreases r, 0
  {
    var x := if r.kind.KUnaryApp? then r.kind.arg else r.kind.e;
    MessageKeepsValue(s, x);
    OneValue(s, FromInner(x));
  }

  lemma {:induction false} SeveralValues(s: Semantics, r: Residual)
    requires r.Partial? && (r.kind.KIf? || r.kind.KAnd? || r.kind.KOr? || r.kind.KBinaryApp?)
    ensures EvalMessage(s, FromInner(r)) == EvalResidual(s, r)
    decreases r, 0
  {
    match r.kind
    case KIf(test, thn, els) =>
      MessageKeepsValue(s, test);
      MessageKeepsValue(s, thn);
      MessageKeepsValue(s, els);
      ThreeValues(s, FromInner(test), FromInner(thn), FromInner(els));
    case KAnd(left, right) => PairValues(s, left, right);
    case KOr(left, right) => PairValues(s, left, right);
    case KBinaryApp(_, arg1, arg2) => PairValues(s, arg1, arg2);
  }

  lemma {:induction false} PairValues(s: Semantics, r1: Residual, r2: Residual)
    ensures EvalMessages(s, [FromInner(r1), FromInner(r2)]) == [EvalResidual(s, r1), EvalResidual(s, r2)]
    decreases if r1 < r2 then r2 else r1, 2
  {
    MessageKeepsValue(s, r1);
    MessageKeepsValue(s, r2);
    TwoValues(s, FromInner(r1), FromInner(r2));
  }
}

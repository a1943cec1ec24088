/** Residuals as flat wire messages: a tag, one field for each kind of payload, and the children.

    One message type serves every kind of residual; what a tag does not use keeps its default. */
module ResidualMessages {
  import opened Wrappers
  import opened Residuals

  datatype Tag =
    | TagVal | TagError | TagVar | TagIte | TagAnd | TagOr | TagUnaryApp | TagBinaryApp | TagGetAttr | TagHasAttr
    | TagExtHasAttr | TagLike | TagIs | TagSet | TagRecord | TagCall

  datatype Message = Message(
    tag: Tag,
    ty: string,
    val: Option<Value>,
    x: Var,
    uop: UnaryOp,
    bop: BinaryOp,
    attr: string,
    attrs: seq<string>,
    pattern: seq<Option<char>>,
    entityType: Option<string>,
    fnName: Option<string>,
    fieldNames: seq<string>,
    children: seq<Message>)

  function Blank(ty: string): Message {
    Message(TagVal, ty, None, Principal, Not, Eq, "", [], [], None, None, [], [])
  }

  /** `proto::Residual::from_inner` */
  function FromInner(r: Residual): Message
    decreases r
  {
    match r
    case Error(ty) => Blank(ty).(tag := TagError)
    case Concrete(v, ty) => Blank(ty).(tag := TagVal, val := Some(v))
    case Partial(kind, ty) =>
      var out := Blank(ty);
      match kind
      case KVar(x) => out.(tag := TagVar, x := x)
      case KIf(test, thn, els) => out.(tag := TagIte, children := [FromInner(test), FromInner(thn), FromInner(els)])
      case KAnd(left, right) => out.(tag := TagAnd, children := [FromInner(left), FromInner(right)])
      case KOr(left, right) => out.(tag := TagOr, children := [FromInner(left), FromInner(right)])
      case KUnaryApp(op, arg) => out.(tag := TagUnaryApp, uop := op, children := [FromInner(arg)])
      case KBinaryApp(op, arg1, arg2) =>
        out.(tag := TagBinaryApp, bop := op, children := [FromInner(arg1), FromInner(arg2)])
      case KGetAttr(e, attr) => out.(tag := TagGetAttr, attr := attr, children := [FromInner(e)])
      case KHasAttr(e, attr) => out.(tag := TagHasAttr, attr := attr, children := [FromInner(e)])
      case KExtHasAttr(e, attrs) => out.(tag := TagExtHasAttr, attrs := attrs, children := [FromInner(e)])
      case KLike(e, pattern) => out.(tag := TagLike, pattern := pattern, children := [FromInner(e)])
      case KIs(e, entityType) => out.(tag := TagIs, entityType := Some(entityType), children := [FromInner(e)])
      case KSet(items) => out.(tag := TagSet, children := AllFromInner(items))
      case KRecord(keys, items) => out.(tag := TagRecord, fieldNames := keys, children := AllFromInner(items))
      case KExtCall(fn, items) => out.(tag := TagCall, fnName := Some(fn), children := AllFromInner(items))
  }

  function AllFromInner(rs: seq<Residual>): seq<Message>
    decreases rs
  {
    if rs == [] then [] else [FromInner(rs[0])] + AllFromInner(rs[1..])
  }

  /** The residual of a message, given those of its children; only the fields that the tag uses count. */
  function WithChildren(m: Message, c: seq<Residual>): Option<Residual> {
    match m.tag
    case TagError => Some(Error(m.ty))
    case TagVal => if m.val.Some? then Some(Concrete(m.val.value, m.ty)) else None
    case TagVar => Some(Partial(KVar(m.x), m.ty))
    case TagIte => if |c| == 3 then Some(Partial(KIf(c[0], c[1], c[2]), m.ty)) else None
    case TagAnd => if |c| == 2 then Some(Partial(KAnd(c[0], c[1]), m.ty)) else None
    case TagOr => if |c| == 2 then Some(Partial(KOr(c[0], c[1]), m.ty)) else None
    case TagUnaryApp => if |c| == 1 then Some(Partial(KUnaryApp(m.uop, c[0]), m.ty)) else None
    case TagBinaryApp => if |c| == 2 then Some(Partial(KBinaryApp(m.bop, c[0], c[1]), m.ty)) else None
    case TagGetAttr => if |c| == 1 then Some(Partial(KGetAttr(c[0], m.attr), m.ty)) else None
    case TagHasAttr => if |c| == 1 then Some(Partial(KHasAttr(c[0], m.attr), m.ty)) else None
    case TagExtHasAttr => if |c| == 1 then Some(Partial(KExtHasAttr(c[0], m.attrs), m.ty)) else None
    case TagLike => if |c| == 1 then Some(Partial(KLike(c[0], m.pattern), m.ty)) else None
    case TagIs => if |c| == 1 && m.entityType.Some? then Some(Partial(KIs(c[0], m.entityType.value), m.ty)) else None
    case TagSet => Some(Partial(KSet(c), m.ty))
    case TagRecord => Some(Partial(KRecord(m.fieldNames, c), m.ty))
    case TagCall => if m.fnName.Some? then Some(Partial(KExtCall(m.fnName.value, c), m.ty)) else None
  }

  /** Reading a message back */
  function ToInner(m: Message): Option<Residual>
    decreases m
  {
    match AllToInner(m.children)
    case None => None
    case Some(c) => WithChildren(m, c)
  }

  function AllToInner(ms: seq<Message>): Option<seq<Residual>>
    decreases ms
  {
    if ms == [] then Some([])
    else
      match (ToInner(ms[0]), AllToInner(ms[1..]))
      case (Some(r), Some(rs)) => Some([r] + rs)
      case _ => None
  }

  lemma {:induction false} OneChild(m: Message, r: Residual)
    requires ToInner(m) == Some(r)
    ensures AllToInner([m]) == Some([r])
  {
    var none: seq<Message> := [];
    assert [m][1..] == none && AllToInner(none) == Some([]);
    assert [r] + [] == [r];
  }

  lemma {:induction false} TwoChildren(m1: Message, r1: Residual, m2: Message, r2: Residual)
    requires ToInner(m1) == Some(r1) && ToInner(m2) == Some(r2)
    ensures AllToInner([m1, m2]) == Some([r1, r2])
  {
    OneChild(m2, r2);
    assert [m1, m2][1..] == [m2];
    assert [r1] + [r2] == [r1, r2];
  }

  lemma {:induction false} ThreeChildren(
      m1: Message, r1: Residual, m2: Message, r2: Residual, m3: Message, r3: Residual)
    requires ToInner(m1) == Some(r1) && ToInner(m2) == Some(r2) && ToInner(m3) == Some(r3)
    ensures AllToInner([m1, m2, m3]) == Some([r1, r2, r3])
  {
    TwoChildren(m2, r2, m3, r3);
    assert [m1, m2, m3][1..] == [m2, m3];
    assert [r1] + [r2, r3] == [r1, r2, r3];
  }

  lemma {:induction false} AllRoundTrip(rs: seq<Residual>)
    ensures AllToInner(AllFromInner(rs)) == Some(rs)
    decreases rs
  {
    if rs != [] {
      RoundTrip(rs[0]);
      AllRoundTrip(rs[1..]);
      assert AllFromInner(rs)[1..] == AllFromInner(rs[1..]);
      assert [rs[0]] + rs[1..] == rs;
    }
  }

  /** The children of a residual, in message order */
  function Children(r: Residual): seq<Residual> {
    match r
    case Error(_) => []
    case Concrete(_, _) => []
    case Partial(kind, _) =>
      match kind
      case KVar(_) => []
      case KIf(test, thn, els) => [test, thn, els]
      case KAnd(left, right) => [left, right]
      case KOr(left, right) => [left, right]
      case KUnaryApp(_, arg) => [arg]
      case KBinaryApp(_, arg1, arg2) => [arg1, arg2]
      case KGetAttr(e, _) => [e]
      case KHasAttr(e, _) => [e]
      case KExtHasAttr(e, _) => [e]
      case KLike(e, _) => [e]
      case KIs(e, _) => [e]
      case KSet(items) => items
      case KRecord(_, items) => items
      case KExtCall(_, items) => items
  }

  lemma {:induction false} ChildrenRoundTrip(r: Residual)
    ensures AllToInner(FromInner(r).children) == Some(Children(r))
    decreases r, 1
  {
    match r
    case Partial(KUnaryApp(_, e), _) => SingleRoundTrip(e);
    case Partial(KGetAttr(e, _), _) => SingleRoundTrip(e);
    case Partial(KHasAttr(e, _), _) => SingleRoundTrip(e);
    case Partial(KExtHasAttr(e, _), _) => SingleRoundTrip(e);
    case Partial(KLike(e, _), _) => SingleRoundTrip(e);
    case Partial(KIs(e, _), _) => SingleRoundTrip(e);
    case Partial(KSet(items), _) => AllRoundTrip(items);
    case Partial(KRecord(_, items), _) => AllRoundTrip(items);
    case Partial(KExtCall(_, items), _) => AllRoundTrip(items);
    case _ => SeveralRoundTrip(r);
  }

  lemma {:induction false} SeveralRoundTrip(r: Residual)
    requires r.Partial? ==> r.kind.KVar? || r.kind.KIf? || r.kind.KAnd? || r.kind.KOr? || r.kind.KBinaryApp?
    ensures AllToInner(FromInner(r).children) == Some(Children(r))
    decreases r, 0
  {
    match r
    case Partial(KIf(test, thn, els), _) =>
      RoundTrip(test);
      RoundTrip(thn);
      RoundTrip(els);
      ThreeChildren(FromInner(test), test, FromInner(thn), thn, FromInner(els), els);
    case Partial(KAnd(left, right), _) => PairRoundTrip(left, right);
    case Partial(KOr(left, right), _) => PairRoundTrip(left, right);
    case Partial(KBinaryApp(_, arg1, arg2), _) => PairRoundTrip(arg1, arg2);
    case _ =>
  }

  lemma {:induction false} PairRoundTrip(e1: Residual, e2: Residual)
    ensures AllToInner([FromInner(e1), FromInner(e2)]) == Some([e1, e2])
    decreases if e1 < e2 then e2 else e1, 3
  {
    RoundTrip(e1);
    RoundTrip(e2);
    TwoChildren(FromInner(e1), e1, FromInner(e2), e2);
  }

  lemma {:induction false} SingleRoundTrip(e: Residual)
    ensures AllToInner([FromInner(e)]) == Some([e])
    decreases e, 3
  {
    RoundTrip(e);
    OneChild(FromInner(e), e);
  }

  ghost predicate HasOneChild(r: Residual) {
    r.Partial? && match r.kind
                  case KUnaryApp(_, _) => true
                  case KGetAttr(_, _) => true
                  case KHasAttr(_, _) => true
                  case KExtHasAttr(_, _) => true
                  case KLike(_, _) => true
                  case KIs(_, _) => true
                  case _ => false
  }

  lemma {:induction false} OneChildParent(r: Residual)
    requires HasOneChild(r)
    ensures WithChildren(FromInner(r), Children(r)) == Some(r)
  {
  }

  lemma {:induction false} OtherParent(r: Residual)
    requires !HasOneChild(r)
    ensures WithChildren(FromInner(r), Children(r)) == Some(r)
  {
  }

  /** The flat message loses nothing: the reader recovers every residual. */
  lemma {:induction false} RoundTrip(r: Residual)
    ensures ToInner(FromInner(r)) == Some(r)
    decreases r, 2
  {
    ChildrenRoundTrip(r);
    if HasOneChild(r) { OneChildParent(r); } else { OtherParent(r); }
  }
}

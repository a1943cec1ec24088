/** The generator of policy conditions: expressions of bounded depth.  Expressions can hold slots; those
    generated never do. */
module PolicyExprs {
  import opened Wrappers
  import opened Choices

  type EntityUid = string

  datatype SlotId = PrincipalSlot | ResourceSlot

  datatype Literal = BoolLit(b: bool) | LongLit(i: int) | StringLit(s: string) | UidLit(uid: EntityUid)

  datatype Var = Principal | Action | Resource | Context

  datatype UnaryOp = Not | Neg | IsEmpty

  datatype BinaryOp =
    | Eq | NotEq | Less | LessEq | Greater | GreaterEq | And | Or | Add | Sub | Mul
    | In | Contains | ContainsAll | ContainsAny | GetTag | HasTag

  datatype Expr =
    | Lit(lit: Literal)
    | VarExpr(v: Var)
    | SlotExpr(slot: SlotId)
    | Unary(uop: UnaryOp, e: Expr)
    | Binary(bop: BinaryOp, left: Expr, right: Expr)
    | GetAttr(e: Expr, attr: string)
    | HasAttr(e: Expr, attrs: seq<string>)
    | Like(e: Expr, pattern: seq<Option<char>>)
    | Is(e: Expr, ty: string, inExpr: Option<Expr>)
    | IfThenElse(test: Expr, thn: Expr, els: Expr)
    | SetExpr(elems: seq<Expr>)
    | RecordExpr(entries: map<string, Expr>)

  function SlotsOf(e: Expr): set<SlotId> {
    match e
    case Lit(_) => {}
    case VarExpr(_) => {}
    case SlotExpr(slot) => {slot}
    case Unary(_, x) => SlotsOf(x)
    case Binary(_, x, y) => SlotsOf(x) + SlotsOf(y)
    case GetAttr(x, _) => SlotsOf(x)
    case HasAttr(x, _) => SlotsOf(x)
    case Like(x, _) => SlotsOf(x)
    case Is(x, _, y) => SlotsOf(x) + if y.Some? then SlotsOf(y.value) else {}
    case IfThenElse(x, y, z) => SlotsOf(x) + SlotsOf(y) + SlotsOf(z)
    case SetExpr(elems) => set x, s | x in elems && s in SlotsOf(x) :: s
    case RecordExpr(entries) => set k, s | k in entries && s in SlotsOf(entries[k]) :: s
  }

  const UNARY_OPS := [Not, Neg, IsEmpty]

  const BINARY_OPS := [
    Eq, NotEq, Less, LessEq, Greater, GreaterEq, And, Or, Add, Sub, Mul,
    In, Contains, ContainsAll, ContainsAny, GetTag, HasTag]

  const VARS := [Principal, Action, Resource, Context]

  // ----- the generator -----

  function ArbitraryLiteral(u: Unstructured): Drawn<(Expr, Unstructured)> {
    var (x, u1) :- ReadIndex(u, 7);
    if x < 2 then
      var (b, u2) :- ReadFlip(u1);
      Ok((Lit(BoolLit(b)), u2))
    else if x < 4 then
      var (i, u2) :- ReadIndex(u1, 0x1_0000_0000_0000_0000);
      Ok((Lit(LongLit(i as int - 0x8000_0000_0000_0000)), u2))
    else
      var (text, u2) :- ReadText(u1);
      Ok((Lit(if x < 6 then StringLit(text) else UidLit(text)), u2))
  }

  function ArbitraryVar(u: Unstructured): Drawn<(Expr, Unstructured)> {
    var (i, u1) :- ReadIndex(u, |VARS|);
    Ok((VarExpr(VARS[i]), u1))
  }

  /** At most `n` texts */
  function ArbitraryTexts(n: nat, u: Unstructured): Drawn<(seq<string>, Unstructured)> {
    if n == 0 then Ok(([], u))
    else
      var (text, u1) :- ReadText(u);
      var (rest, u2) :- ArbitraryTexts(n - 1, u1);
      Ok(([text] + rest, u2))
  }

  /** The Unicode scalar values, numbered: all code points but the surrogates */
  function Scalar(n: nat): char
    requires n < 0x10F800
  {
    if n < 0xD800 then n as char else (n + 0x800) as char
  }

  /** A wildcard, or a character given by its number */
  function ArbitraryPatternElem(u: Unstructured): Drawn<(Option<char>, Unstructured)> {
    var (x, u1) :- ReadIndex(u, 4);
    if x == 3 then Ok((None, u1))
    else
      var (c, u2) :- ReadIndex(u1, 0x10F800);
      Ok((Some(Scalar(c)), u2))
  }

  /** `u.arbitrary_loop(Some(0), Some(n), ..)` */
  function ArbitraryPattern(n: nat, u: Unstructured): Drawn<(seq<Option<char>>, Unstructured)> {
    if n == 0 then Ok(([], u))
    else
      var (more, u1) :- ReadFlip(u);
      if !more then Ok(([], u1))
      else
        var (elem, u2) :- ArbitraryPatternElem(u1);
        var (rest, u3) :- ArbitraryPattern(n - 1, u2);
        Ok(([elem] + rest, u3))
  }

  /** `arbitrary_pst_expr` */
  function ArbitraryExpr(depth: nat, width: nat, u: Unstructured): Drawn<(Expr, Unstructured)>
    decreases depth, 2, 0
  {
    if depth == 0 then
      var (x, u1) :- ReadIndex(u, 5);
      if x < 3 then ArbitraryLiteral(u1) else ArbitraryVar(u1)
    else
      var (x, u1) :- ReadIndex(u, 15);
      if x < 2 then ArbitraryLiteral(u1)
      else if x < 4 then ArbitraryVar(u1)
      else if x < 7 then ArbitraryOperation(x == 4, depth, width, u1)
      else if x < 12 then ArbitraryOnOne(x, depth, width, u1)
      else if x == 12 then ArbitraryConditional(depth, width, u1)
      else if x == 13 then
        var (elems, u2) :- ArbitraryElems(width, depth - 1, width, u1);
        Ok((SetExpr(elems), u2))
      else
        var (entries, u2) :- ArbitraryEntries(width, map[], depth - 1, width, u1);
        Ok((RecordExpr(entries), u2))
  }

  function ArbitraryOperation(unary: bool, depth: nat, width: nat, u: Unstructured): Drawn<(Expr, Unstructured)>
    requires depth > 0
    decreases depth, 1, 0
  {
    if unary then
      var (op, u1) :- ReadIndex(u, |UNARY_OPS|);
      var (x, u2) :- ArbitraryExpr(depth - 1, width, u1);
      Ok((Unary(UNARY_OPS[op], x), u2))
    else
      var (op, u1) :- ReadIndex(u, |BINARY_OPS|);
      var (x, u2) :- ArbitraryExpr(depth - 1, width, u1);
      var (y, u3) :- ArbitraryExpr(depth - 1, width, u2);
      Ok((Binary(BINARY_OPS[op], x, y), u3))
  }

  /** An expression, and something to look for in it */
  function ArbitraryOnOne(kind: nat, depth: nat, width: nat, u: Unstructured): Drawn<(Expr, Unstructured)>
    requires depth > 0
    decreases depth, 1, 0
  {
    var (x, u1) :- ArbitraryExpr(depth - 1, width, u);
    if kind == 7 then
      var (attr, u2) :- ReadText(u1);
      Ok((GetAttr(x, attr), u2))
    else if kind == 8 then
      var (attr, u2) :- ReadText(u1);
      Ok((HasAttr(x, [attr]), u2))
    else if kind == 9 then
      var (first, u2) :- ReadText(u1);
      var (extra, u3) :- ReadIndex(u2, 4);
      var (rest, u4) :- ArbitraryTexts(extra + 1, u3);
      Ok((HasAttr(x, [first] + rest), u4))
    else if kind == 10 then
      var (pattern, u2) :- ArbitraryPattern(width, u1);
      Ok((Like(x, pattern), u2))
    else
      var (ty, u2) :- ReadText(u1);
      var (withIn, u3) :- ReadFlip(u2);
      if !withIn then Ok((Is(x, ty, None), u3))
      else
        var (y, u4) :- ArbitraryExpr(depth - 1, width, u3);
        Ok((Is(x, ty, Some(y)), u4))
  }

  function ArbitraryConditional(depth: nat, width: nat, u: Unstructured): Drawn<(Expr, Unstructured)>
    requires depth > 0
    decreases depth, 1, 0
  {
    var (x, u1) :- ArbitraryExpr(depth - 1, width, u);
    var (y, u2) :- ArbitraryExpr(depth - 1, width, u1);
    var (z, u3) :- ArbitraryExpr(depth - 1, width, u2);
    Ok((IfThenElse(x, y, z), u3))
  }

  function ArbitraryElems(n: nat, depth: nat, width: nat, u: Unstructured): Drawn<(seq<Expr>, Unstructured)>
    decreases depth, 3, n
  {
    if n == 0 then Ok(([], u))
    else
      var (more, u1) :- ReadFlip(u);
      if !more then Ok(([], u1))
      else
        var (x, u2) :- ArbitraryExpr(depth, width, u1);
        var (rest, u3) :- ArbitraryElems(n - 1, depth, width, u2);
        Ok(([x] + rest, u3))
  }

  /** A repeated key takes the last expression. */
  function ArbitraryEntries(n: nat, entries: map<string, Expr>, depth: nat, width: nat, u: Unstructured)
    : Drawn<(map<string, Expr>, Unstructured)>
    decreases depth, 3, n
  {
    if n == 0 then Ok((entries, u))
    else
      var (more, u1) :- ReadFlip(u);
      if !more then Ok((entries, u1))
      else
        var (key, u2) :- ReadText(u1);
        var (x, u3) :- ArbitraryExpr(depth, width, u2);
        ArbitraryEntries(n - 1, entries[key := x], depth, width, u3)
  }

  // ----- no slots -----

  /** An expression without slots, or an error other than the one about depth */
  ghost predicate SlotFree(r: Drawn<(Expr, Unstructured)>) {
    match r
    case Ok(drawn) => SlotsOf(drawn.0) == {}
    case Err(e) => e != TooDeep
  }

  lemma {:induction false} TextsNotTooDeep(n: nat, u: Unstructured)
    ensures ArbitraryTexts(n, u) != Err(TooDeep)
  {
    if n > 0 && ReadText(u).Ok? { TextsNotTooDeep(n - 1, ReadText(u).value.1); }
  }

  lemma {:induction false} PatternNotTooDeep(n: nat, u: Unstructured)
    ensures ArbitraryPattern(n, u) != Err(TooDeep)
  {
    if n > 0 && ReadFlip(u).Ok? && ArbitraryPatternElem(ReadFlip(u).value.1).Ok? {
      PatternNotTooDeep(n - 1, ArbitraryPatternElem(ReadFlip(u).value.1).value.1);
    }
  }

  /** At every depth, a generated expression has no slot, and no error is about depth. */
  lemma {:induction false} ExprSlotFree(depth: nat, width: nat, u: Unstructured)
    ensures SlotFree(ArbitraryExpr(depth, width, u))
    decreases depth, 2, 0
  {
    if depth > 0 && ReadIndex(u, 15).Ok? {
      var (x, u1) := ReadIndex(u, 15).value;
      if 4 <= x < 7 { OperationSlotFree(x == 4, depth, width, u1); }
      else if 7 <= x < 12 { OnOneSlotFree(x, depth, width, u1); }
      else if x == 12 { ConditionalSlotFree(depth, width, u1); }
      else if x == 13 { ElemsSlotFree(width, depth - 1, width, u1); }
      else if x == 14 { EntriesSlotFree(width, map[], depth - 1, width, u1); }
    }
  }

  lemma {:induction false} OperationSlotFree(unary: bool, depth: nat, width: nat, u: Unstructured)
    requires depth > 0
    ensures SlotFree(ArbitraryOperation(unary, depth, width, u))
    decreases depth, 1, 0
  {
    var op := ReadIndex(u, if unary then |UNARY_OPS| else |BINARY_OPS|);
    if op.Ok? {
      ExprSlotFree(depth - 1, width, op.value.1);
      var x := ArbitraryExpr(depth - 1, width, op.value.1);
      if x.Ok? { ExprSlotFree(depth - 1, width, x.value.1); }
    }
  }

  lemma {:induction false} OnOneSlotFree(kind: nat, depth: nat, width: nat, u: Unstructured)
    requires depth > 0
    ensures SlotFree(ArbitraryOnOne(kind, depth, width, u))
    decreases depth, 1, 0
  {
    ExprSlotFree(depth - 1, width, u);
    var x := ArbitraryExpr(depth - 1, width, u);
    if x.Ok? {
      var u1 := x.value.1;
      if kind == 9 && ReadText(u1).Ok? && ReadIndex(ReadText(u1).value.1, 4).Ok? {
        var (extra, u3) := ReadIndex(ReadText(u1).value.1, 4).value;
        TextsNotTooDeep(extra + 1, u3);
      } else if kind == 10 {
        PatternNotTooDeep(width, u1);
      } else if ReadText(u1).Ok? && ReadFlip(ReadText(u1).value.1).Ok? {
        ExprSlotFree(depth - 1, width, ReadFlip(ReadText(u1).value.1).value.1);
      }
    }
  }

  lemma {:induction false} ConditionalSlotFree(depth: nat, width: nat, u: Unstructured)
    requires depth > 0
    ensures SlotFree(ArbitraryConditional(depth, width, u))
    decreases depth, 1, 0
  {
    ExprSlotFree(depth - 1, width, u);
    var x := ArbitraryExpr(depth - 1, width, u);
    if x.Ok? {
      ExprSlotFree(depth - 1, width, x.value.1);
      var y := ArbitraryExpr(depth - 1, width, x.value.1);
      if y.Ok? { ExprSlotFree(depth - 1, width, y.value.1); }
    }
  }

  lemma {:induction false} ElemsSlotFree(n: nat, depth: nat, width: nat, u: Unstructured)
    ensures ArbitraryElems(n, depth, width, u) != Err(TooDeep)
    ensures ArbitraryElems(n, depth, width, u).Ok? ==>
              forall x <- ArbitraryElems(n, depth, width, u).value.0 :: SlotsOf(x) == {}
    decreases depth, 3, n
  {
    if n > 0 && ReadFlip(u).Ok? && ReadFlip(u).value.0 {
      var u1 := ReadFlip(u).value.1;
      ExprSlotFree(depth, width, u1);
      var x := ArbitraryExpr(depth, width, u1);
      if x.Ok? { ElemsSlotFree(n - 1, depth, width, x.value.1); }
    }
  }

  lemma {:induction false} EntriesSlotFree(
      n: nat, entries: map<string, Expr>, depth: nat, width: nat, u: Unstructured)
    requires forall k | k in entries :: SlotsOf(entries[k]) == {}
    ensures var r := ArbitraryEntries(n, entries, depth, width, u);
            r != Err(TooDeep) && (r.Ok? ==> forall k | k in r.value.0 :: SlotsOf(r.value.0[k]) == {})
    decreases depth, 3, n
  {
    if n > 0 && ReadFlip(u).Ok? && ReadFlip(u).value.0 && ReadText(ReadFlip(u).value.1).Ok? {
      var (key, u2) := ReadText(ReadFlip(u).value.1).value;
      ExprSlotFree(depth, width, u2);
      var x := ArbitraryExpr(depth, width, u2);
      if x.Ok? { EntriesSlotFree(n - 1, entries[key := x.value.0], depth, width, x.value.1); }
    }
  }
}

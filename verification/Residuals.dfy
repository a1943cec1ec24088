/** Residuals generated by translating expressions with injected errors, and their flat wire messages. */
module Residuals {
  import opened Wrappers
  import opened Choices

  /** Values, of which only booleans matter here */
  datatype Value = BoolValue(b: bool) | OtherValue(n: nat)

  datatype Var = Principal | Action | Resource | Context

  datatype UnaryOp = Not | Neg | IsEmpty

  datatype BinaryOp =
    | Eq | Less | LessEq | Add | Sub | Mul | In | Contains | ContainsAll | ContainsAny | GetTag | HasTag

  datatype Expr =
    | Lit(v: Value)
    | VarExpr(x: Var)
    | If(test: Expr, thn: Expr, els: Expr)
    | And(left: Expr, right: Expr)
    | Or(left: Expr, right: Expr)
    | UnaryApp(uop: UnaryOp, arg: Expr)
    | BinaryApp(bop: BinaryOp, arg1: Expr, arg2: Expr)
    | GetAttr(e: Expr, attr: string)
    | HasAttr(e: Expr, attr: string)
    | ExtHasAttr(e: Expr, attrs: seq<string>)
    | Like(e: Expr, pattern: seq<Option<char>>)
    | Is(e: Expr, entityType: string)
    | Set(items: seq<Expr>)
    | Record(keys: seq<string>, items: seq<Expr>)
    | ExtCall(fn: string, items: seq<Expr>)
    | Unknown(name: string)
    | Slot(slot: string)

  datatype Residual =
    | Error(ty: string)
    | Concrete(v: Value, ty: string)
    | Partial(kind: Kind, ty: string)

  datatype Kind =
    | KVar(x: Var)
    | KIf(test: Residual, thn: Residual, els: Residual)
    | KAnd(left: Residual, right: Residual)
    | KOr(left: Residual, right: Residual)
    | KUnaryApp(uop: UnaryOp, arg: Residual)
    | KBinaryApp(bop: BinaryOp, arg1: Residual, arg2: Residual)
    | KGetAttr(e: Residual, attr: string)
    | KHasAttr(e: Residual, attr: string)
    | KExtHasAttr(e: Residual, attrs: seq<string>)
    | KLike(e: Residual, pattern: seq<Option<char>>)
    | KIs(e: Residual, entityType: string)
    | KSet(items: seq<Residual>)
    | KRecord(keys: seq<string>, items: seq<Residual>)
    | KExtCall(fn: string, items: seq<Residual>)

  // ----- the translation -----

  /** Every node is annotated with the type of booleans. */
  const BOOL := "Bool"

  /** `residual_of_expr` */
  function ResidualOf(e: Expr, u: Unstructured): Drawn<(Residual, Unstructured)>
    decreases e
  {
    var (inject, u0) :- ReadFlip(u);
    if inject then Ok((Error(BOOL), u0))
    else
      match e
      case Lit(v) => Ok((Concrete(v, BOOL), u0))
      case Unknown(_) => Ok((Concrete(BoolValue(true), BOOL), u0))
      case Slot(_) => Ok((Concrete(BoolValue(true), BOOL), u0))
      case VarExpr(x) => Ok((Partial(KVar(x), BOOL), u0))
      case If(test, thn, els) =>
        var (r1, u1) :- ResidualOf(test, u0);
        var (r2, u2) :- ResidualOf(thn, u1);
        var (r3, u3) :- ResidualOf(els, u2);
        Ok((Partial(KIf(r1, r2, r3), BOOL), u3))
      case And(left, right) =>
        var (r1, u1) :- ResidualOf(left, u0);
        var (r2, u2) :- ResidualOf(right, u1);
        Ok((Partial(KAnd(r1, r2), BOOL), u2))
      case Or(left, right) =>
        var (r1, u1) :- ResidualOf(left, u0);
        var (r2, u2) :- ResidualOf(right, u1);
        Ok((Partial(KOr(r1, r2), BOOL), u2))
      case UnaryApp(op, arg) =>
        var (r, u1) :- ResidualOf(arg, u0);
        Ok((Partial(KUnaryApp(op, r), BOOL), u1))
      case BinaryApp(op, arg1, arg2) =>
        var (r1, u1) :- ResidualOf(arg1, u0);
        var (r2, u2) :- ResidualOf(arg2, u1);
        Ok((Partial(KBinaryApp(op, r1, r2), BOOL), u2))
      case GetAttr(x, attr) =>
        var (r, u1) :- ResidualOf(x, u0);
        Ok((Partial(KGetAttr(r, attr), BOOL), u1))
      case HasAttr(x, attr) =>
        var (r, u1) :- ResidualOf(x, u0);
        Ok((Partial(KHasAttr(r, attr), BOOL), u1))
      case ExtHasAttr(x, attrs) =>
        var (r, u1) :- ResidualOf(x, u0);
        Ok((Partial(KExtHasAttr(r, attrs), BOOL), u1))
      case Like(x, pattern) =>
        var (r, u1) :- ResidualOf(x, u0);
        Ok((Partial(KLike(r, pattern), BOOL), u1))
      case Is(x, entityType) =>
        var (r, u1) :- ResidualOf(x, u0);
        Ok((Partial(KIs(r, entityType), BOOL), u1))
      case Set(items) =>
        var (rs, u1) :- ResidualsOf(items, u0);
        Ok((Partial(KSet(rs), BOOL), u1))
      case Record(keys, items) =>
        var (rs, u1) :- ResidualsOf(items, u0);
        Ok((Partial(KRecord(keys, rs), BOOL), u1))
      case ExtCall(fn, items) =>
        var (rs, u1) :- ResidualsOf(items, u0);
        Ok((Partial(KExtCall(fn, rs), BOOL), u1))
  }

  function ResidualsOf(es: seq<Expr>, u: Unstructured): Drawn<(seq<Residual>, Unstructured)>
    decreases es
  {
    if es == [] then Ok(([], u))
    else
      var (first, u1) :- ResidualOf(es[0], u);
      var (rest, u2) :- ResidualsOf(es[1..], u1);
      Ok(([first] + rest, u2))
  }

  // ----- evaluation -----

  /** The operations that evaluate all their arguments */
  datatype Operation =
    | Unary(uop: UnaryOp) | Binary(bop: BinaryOp) | Get(attr: string) | Has(attr: string) | ExtHas(attrs: seq<string>)
    | Matches(pattern: seq<Option<char>>) | IsType(entityType: string) | MakeSet | MakeRecord(keys: seq<string>)
    | Call(fn: string)

  /** A request with its data, and uninterpreted operations, each of which may fail */
  datatype Semantics = Semantics(vars: Var -> Value, apply: (Operation, seq<Value>) -> Option<Value>)

  function Conditional(test: Option<Value>, thn: Option<Value>, els: Option<Value>): Option<Value> {
    if test == Some(BoolValue(true)) then thn else if test == Some(BoolValue(false)) then els else None
  }

  function Boolean(v: Option<Value>): Option<Value> {
    if v.Some? && v.value.BoolValue? then v else None
  }

  /** Errors are `None`.  Conjunction, disjunction and conditionals stop early; all else is strict. */
  function Eval(s: Semantics, e: Expr): Option<Value>
    decreases e
  {
    match e
    case Lit(v) => Some(v)
    case VarExpr(x) => Some(s.vars(x))
    case If(test, thn, els) => Conditional(Eval(s, test), Eval(s, thn), Eval(s, els))
    case And(left, right) => Conditional(Eval(s, left), Boolean(Eval(s, right)), Some(BoolValue(false)))
    case Or(left, right) => Conditional(Eval(s, left), Some(BoolValue(true)), Boolean(Eval(s, right)))
    case UnaryApp(op, arg) => Strict(s, Unary(op), [Eval(s, arg)])
    case BinaryApp(op, arg1, arg2) => Strict(s, Binary(op), [Eval(s, arg1), Eval(s, arg2)])
    case GetAttr(x, attr) => Strict(s, Get(attr), [Eval(s, x)])
    case HasAttr(x, attr) => Strict(s, Has(attr), [Eval(s, x)])
    case ExtHasAttr(x, attrs) => Strict(s, ExtHas(attrs), [Eval(s, x)])
    case Like(x, pattern) => Strict(s, Matches(pattern), [Eval(s, x)])
    case Is(x, entityType) => Strict(s, IsType(entityType), [Eval(s, x)])
    case Set(items) => Strict(s, MakeSet, EvalAll(s, items))
    case Record(keys, items) => Strict(s, MakeRecord(keys), EvalAll(s, items))
    case ExtCall(fn, items) => Strict(s, Call(fn), EvalAll(s, items))
    case Unknown(_) => None
    case Slot(_) => None
  }

  function EvalAll(s: Semantics, es: seq<Expr>): (r: seq<Option<Value>>)
    decreases es
  {
    if es == [] then [] else [Eval(s, es[0])] + EvalAll(s, es[1..])
  }

  function EvalResidual(s: Semantics, r: Residual): Option<Value>
    decreases r
  {
    match r
    case Error(_) => None
    case Concrete(v, _) => Some(v)
    case Partial(kind, _) =>
      match kind
      case KVar(x) => Some(s.vars(x))
      case KIf(test, thn, els) => Conditional(EvalResidual(s, test), EvalResidual(s, thn), EvalResidual(s, els))
      case KAnd(left, right) =>
        Conditional(EvalResidual(s, left), Boolean(EvalResidual(s, right)), Some(BoolValue(false)))
      case KOr(left, right) =>
        Conditional(EvalResidual(s, left), Some(BoolValue(true)), Boolean(EvalResidual(s, right)))
      case KUnaryApp(op, arg) => Strict(s, Unary(op), [EvalResidual(s, arg)])
      case KBinaryApp(op, arg1, arg2) => Strict(s, Binary(op), [EvalResidual(s, arg1), EvalResidual(s, arg2)])
      case KGetAttr(x, attr) => Strict(s, Get(attr), [EvalResidual(s, x)])
      case KHasAttr(x, attr) => Strict(s, Has(attr), [EvalResidual(s, x)])
      case KExtHasAttr(x, attrs) => Strict(s, ExtHas(attrs), [EvalResidual(s, x)])
      case KLike(x, pattern) => Strict(s, Matches(pattern), [EvalResidual(s, x)])
      case KIs(x, entityType) => Strict(s, IsType(entityType), [EvalResidual(s, x)])
      case KSet(items) => Strict(s, MakeSet, EvalResiduals(s, items))
      case KRecord(keys, items) => Strict(s, MakeRecord(keys), EvalResiduals(s, items))
      case KExtCall(fn, items) => Strict(s, Call(fn), EvalResiduals(s, items))
  }

  function EvalResiduals(s: Semantics, rs: seq<Residual>): seq<Option<Value>>
    decreases rs
  {
    if rs == [] then [] else [EvalResidual(s, rs[0])] + EvalResiduals(s, rs[1..])
  }

  /** All arguments must have values. */
  function Strict(s: Semantics, op: Operation, args: seq<Option<Value>>): Option<Value> {
    if forall a <- args :: a.Some? then
      s.apply(op, seq(|args|, i requires 0 <= i < |args| => assert args[i] in args; args[i].value))
    else None
  }

  // ----- error injection under-approximates -----

  /** No unknowns and no slots, which the translation replaces by `true` */
  predicate Translatable(e: Expr)
    decreases e
  {
    match e
    case Unknown(_) => false
    case Slot(_) => false
    case Lit(_) => true
    case VarExpr(_) => true
    case If(test, thn, els) => Translatable(test) && Translatable(thn) && Translatable(els)
    case And(left, right) => Translatable(left) && Translatable(right)
    case Or(left, right) => Translatable(left) && Translatable(right)
    case UnaryApp(_, arg) => Translatable(arg)
    case BinaryApp(_, arg1, arg2) => Translatable(arg1) && Translatable(arg2)
    case GetAttr(x, _) => Translatable(x)
    case HasAttr(x, _) => Translatable(x)
    case ExtHasAttr(x, _) => Translatable(x)
    case Like(x, _) => Translatable(x)
    case Is(x, _) => Translatable(x)
    case Set(items) => forall x <- items :: Translatable(x)
    case Record(_, items) => forall x <- items :: Translatable(x)
    case ExtCall(_, items) => forall x <- items :: Translatable(x)
  }

  predicate ErrorFree(r: Residual)
    decreases r
  {
    match r
    case Error(_) => false
    case Concrete(_, _) => true
    case Partial(kind, _) =>
      match kind
      case KVar(_) => true
      case KIf(test, thn, els) => ErrorFree(test) && ErrorFree(thn) && ErrorFree(els)
      case KAnd(left, right) => ErrorFree(left) && ErrorFree(right)
      case KOr(left, right) => ErrorFree(left) && ErrorFree(right)
      case KUnaryApp(_, arg) => ErrorFree(arg)
      case KBinaryApp(_, arg1, arg2) => ErrorFree(arg1) && ErrorFree(arg2)
      case KGetAttr(x, _) => ErrorFree(x)
      case KHasAttr(x, _) => ErrorFree(x)
      case KExtHasAttr(x, _) => ErrorFree(x)
      case KLike(x, _) => ErrorFree(x)
      case KIs(x, _) => ErrorFree(x)
      case KSet(items) => forall x <- items :: ErrorFree(x)
      case KRecord(_, items) => forall x <- items :: ErrorFree(x)
      case KExtCall(_, items) => forall x <- items :: ErrorFree(x)
  }

  /** At most as defined: an error, or the same value */
  predicate Below(a: Option<Value>, b: Option<Value>, exact: bool) {
    if exact then a == b else a.None? || a == b
  }

  predicate AllBelow(xs: seq<Option<Value>>, ys: seq<Option<Value>>, exact: bool) {
    |xs| == |ys| && forall i | 0 <= i < |xs| :: Below(xs[i], ys[i], exact)
  }

  lemma StrictBelow(s: Semantics, op: Operation, xs: seq<Option<Value>>, ys: seq<Option<Value>>, exact: bool)
    requires AllBelow(xs, ys, exact)
    ensures Below(Strict(s, op, xs), Strict(s, op, ys), exact)
  {
    if exact {
      assert xs == ys;
    } else if forall a <- xs :: a.Some? {
      assert forall i | 0 <= i < |xs| :: xs[i] in xs;
      assert xs == ys;
    }
  }

  ghost predicate Approximates(s: Semantics, e: Expr, u: Unstructured, exact: bool) {
    ResidualOf(e, u).Ok? && (exact ==> ErrorFree(ResidualOf(e, u).value.0))
    ==> Below(EvalResidual(s, ResidualOf(e, u).value.0), Eval(s, e), exact)
  }

  /** Whatever the coins, a residual that evaluates to a value does so because its expression
      evaluates to that value; with no error injected the two agree, errors included. */
  lemma {:induction false} InjectionUnderApproximates(s: Semantics, e: Expr, u: Unstructured, exact: bool)
    requires Translatable(e)
    ensures Approximates(s, e, u, exact)
    decreases e, 1
  {
    if ResidualOf(e, u).Ok? && (exact ==> ErrorFree(ResidualOf(e, u).value.0)) && !ReadFlip(u).value.0 {
      if HasOneArgument(e) { UnaryCase(s, e, u, exact); }
      else if HasItems(e) { ItemsCase(s, e, u, exact); }
      else if e.BinaryApp? { BinaryCase(s, e, u, exact); }
      else if Branches(e) { BranchingCase(s, e, u, exact); }
    }
  }

  predicate HasOneArgument(e: Expr) {
    e.UnaryApp? || e.GetAttr? || e.HasAttr? || e.ExtHasAttr? || e.Like? || e.Is?
  }

  predicate HasItems(e: Expr) {
    e.Set? || e.Record? || e.ExtCall?
  }

  predicate Branches(e: Expr) {
    e.If? || e.And? || e.Or?
  }

  lemma {:induction false} ItemsCase(s: Semantics, e: Expr, u: Unstructured, exact: bool)
    requires Translatable(e) && HasItems(e)
    requires ResidualOf(e, u).Ok? && !ReadFlip(u).value.0
    requires exact ==> ErrorFree(ResidualOf(e, u).value.0)
    ensures Below(EvalResidual(s, ResidualOf(e, u).value.0), Eval(s, e), exact)
    decreases e, 0
  {
    var u0 := ReadFlip(u).value.1;
    match e
    case Set(items) => ManyArguments(s, MakeSet, items, u0, exact);
    case Record(keys, items) => ManyArguments(s, MakeRecord(keys), items, u0, exact);
    case ExtCall(fn, items) => ManyArguments(s, Call(fn), items, u0, exact);
  }

  lemma {:induction false} UnaryCase(s: Semantics, e: Expr, u: Unstructured, exact: bool)
    requires Translatable(e) && HasOneArgument(e)
    requires ResidualOf(e, u).Ok? && !ReadFlip(u).value.0
    requires exact ==> ErrorFree(ResidualOf(e, u).value.0)
    ensures Below(EvalResidual(s, ResidualOf(e, u).value.0), Eval(s, e), exact)
    decreases e, 0
  {
    var u0 := ReadFlip(u).value.1;
    match e
    case UnaryApp(op, x) => OneArgument(s, Unary(op), x, u0, exact);
    case GetAttr(x, attr) => OneArgument(s, Get(attr), x, u0, exact);
    case HasAttr(x, attr) => OneArgument(s, Has(attr), x, u0, exact);
    case ExtHasAttr(x, attrs) => OneArgument(s, ExtHas(attrs), x, u0, exact);
    case Like(x, pattern) => OneArgument(s, Matches(pattern), x, u0, exact);
    case Is(x, entityType) => OneArgument(s, IsType(entityType), x, u0, exact);
  }

  lemma {:induction false} BranchingCase(s: Semantics, e: Expr, u: Unstructured, exact: bool)
    requires Translatable(e) && Branches(e)
    requires ResidualOf(e, u).Ok? && !ReadFlip(u).value.0
    requires exact ==> ErrorFree(ResidualOf(e, u).value.0)
    ensures Below(EvalResidual(s, ResidualOf(e, u).value.0), Eval(s, e), exact)
    decreases e, 0
  {
    var u0 := ReadFlip(u).value.1;
    match e
    case If(test, thn, els) =>
      var (_, u1) := ResidualOf(test, u0).value;
      var (_, u2) := ResidualOf(thn, u1).value;
      InjectionUnderApproximates(s, test, u0, exact);
      InjectionUnderApproximates(s, thn, u1, exact);
      InjectionUnderApproximates(s, els, u2, exact);
    case And(left, right) =>
      InjectionUnderApproximates(s, left, u0, exact);
      InjectionUnderApproximates(s, right, ResidualOf(left, u0).value.1, exact);
    case Or(left, right) =>
      InjectionUnderApproximates(s, left, u0, exact);
      InjectionUnderApproximates(s, right, ResidualOf(left, u0).value.1, exact);
  }

  lemma {:induction false} BinaryCase(s: Semantics, e: Expr, u: Unstructured, exact: bool)
    requires Translatable(e) && e.BinaryApp? && ResidualOf(e, u).Ok? && !ReadFlip(u).value.0
    requires exact ==> ErrorFree(ResidualOf(e, u).value.0)
    ensures Below(EvalResidual(s, ResidualOf(e, u).value.0), Eval(s, e), exact)
    decreases e, 0
  {
    var u0 := ReadFlip(u).value.1;
    var (r1, u1) := ResidualOf(e.arg1, u0).value;
    InjectionUnderApproximates(s, e.arg1, u0, exact);
    InjectionUnderApproximates(s, e.arg2, u1, exact);
    var r2 := ResidualOf(e.arg2, u1).value.0;
    StrictBelow(
      s, Binary(e.bop), [EvalResidual(s, r1), EvalResidual(s, r2)], [Eval(s, e.arg1), Eval(s, e.arg2)], exact);
  }

  lemma {:induction false} OneArgument(s: Semantics, op: Operation, x: Expr, u: Unstructured, exact: bool)
    requires Translatable(x) && ResidualOf(x, u).Ok?
    requires exact ==> ErrorFree(ResidualOf(x, u).value.0)
    ensures Below(Strict(s, op, [EvalResidual(s, ResidualOf(x, u).value.0)]), Strict(s, op, [Eval(s, x)]), exact)
    decreases x, 2
  {
    InjectionUnderApproximates(s, x, u, exact);
    StrictBelow(s, op, [EvalResidual(s, ResidualOf(x, u).value.0)], [Eval(s, x)], exact);
  }

  lemma {:induction false} ManyArguments(s: Semantics, op: Operation, xs: seq<Expr>, u: Unstructured, exact: bool)
    requires (forall x <- xs :: Translatable(x)) && ResidualsOf(xs, u).Ok?
    requires exact ==> forall r <- ResidualsOf(xs, u).value.0 :: ErrorFree(r)
    ensures Below(Strict(s, op, EvalResiduals(s, ResidualsOf(xs, u).value.0)), Strict(s, op, EvalAll(s, xs)), exact)
    decreases xs, 1
  {
    ArgumentsBelow(s, xs, u, exact);
    StrictBelow(s, op, EvalResiduals(s, ResidualsOf(xs, u).value.0), EvalAll(s, xs), exact);
  }

  lemma {:induction false} ArgumentsBelow(s: Semantics, xs: seq<Expr>, u: Unstructured, exact: bool)
    requires (forall x <- xs :: Translatable(x)) && ResidualsOf(xs, u).Ok?
    requires exact ==> forall r <- ResidualsOf(xs, u).value.0 :: ErrorFree(r)
    ensures AllBelow(EvalResiduals(s, ResidualsOf(xs, u).value.0), EvalAll(s, xs), exact)
    decreases xs, 0
  {
    if xs != [] {
      var rs := ResidualsOf(xs, u).value.0;
      var (_, u1) := ResidualOf(xs[0], u).value;
      assert xs[0] in xs && rs[0] in rs && rs[1..] == ResidualsOf(xs[1..], u1).value.0;
      InjectionUnderApproximates(s, xs[0], u, exact);
      ArgumentsBelow(s, xs[1..], u1, exact);
    }
  }

  /** For every request, expression without unknowns and slots, and coins */
  lemma GeneratedResidualSound(s: Semantics, e: Expr, u: Unstructured)
    requires Translatable(e) && ResidualOf(e, u).Ok?
    ensures var r := ResidualOf(e, u).value.0;
            && (EvalResidual(s, r).Some? ==> Eval(s, e) == EvalResidual(s, r))
            && (ErrorFree(r) ==> Eval(s, e) == EvalResidual(s, r))
  {
    InjectionUnderApproximates(s, e, u, false);
    if ErrorFree(ResidualOf(e, u).value.0) { InjectionUnderApproximates(s, e, u, true); }
  }

  /** Some coins inject nothing: every expression has a translation that evaluates as it does. */
  lemma {:induction false} ExactTranslationExists(e: Expr, rest: Unstructured) returns (u: Unstructured)
    ensures ResidualOf(e, u).Ok? && ResidualOf(e, u).value.1 == rest && ErrorFree(ResidualOf(e, u).value.0)
    decreases e, 1
  {
    var u0 := rest;
    match e {
      case If(_, _, _) => u0 := ExactBranches(e, rest);
      case And(_, _) => u0 := ExactBranches(e, rest);
      case Or(_, _) => u0 := ExactBranches(e, rest);
      case BinaryApp(_, _, _) => u0 := ExactBranches(e, rest);
      case Set(items) => u0 := ExactTranslationsExist(items, rest);
      case Record(_, items) => u0 := ExactTranslationsExist(items, rest);
      case ExtCall(_, items) => u0 := ExactTranslationsExist(items, rest);
      case _ => if HasOneArgument(e) { u0 := ExactArgument(e, rest); }
    }
    u := [Flip(false)] + u0;
    assert u[1..] == u0;
  }

  lemma {:induction false} ExactArgument(e: Expr, rest: Unstructured) returns (u0: Unstructured)
    requires HasOneArgument(e)
    ensures var u := [Flip(false)] + u0;
            ResidualOf(e, u).Ok? && ResidualOf(e, u).value.1 == rest && ErrorFree(ResidualOf(e, u).value.0)
    decreases e, 0
  {
    match e {
      case UnaryApp(_, x) => u0 := ExactTranslationExists(x, rest);
      case GetAttr(x, _) => u0 := ExactTranslationExists(x, rest);
      case HasAttr(x, _) => u0 := ExactTranslationExists(x, rest);
      case ExtHasAttr(x, _) => u0 := ExactTranslationExists(x, rest);
      case Like(x, _) => u0 := ExactTranslationExists(x, rest);
      case Is(x, _) => u0 := ExactTranslationExists(x, rest);
    }
    assert ([Flip(false)] + u0)[1..] == u0;
  }

  lemma {:induction false} ExactBranches(e: Expr, rest: Unstructured) returns (u0: Unstructured)
    requires e.If? || e.And? || e.Or? || e.BinaryApp?
    ensures var u := [Flip(false)] + u0;
            ResidualOf(e, u).Ok? && ResidualOf(e, u).value.1 == rest && ErrorFree(ResidualOf(e, u).value.0)
    decreases e, 0
  {
    u0 := rest;
    match e {
      case If(test, thn, els) =>
        u0 := ExactTranslationExists(els, u0);
        u0 := ExactTranslationExists(thn, u0);
        u0 := ExactTranslationExists(test, u0);
      case And(left, right) =>
        u0 := ExactTranslationExists(right, u0);
        u0 := ExactTranslationExists(left, u0);
      case Or(left, right) =>
        u0 := ExactTranslationExists(right, u0);
        u0 := ExactTranslationExists(left, u0);
      case BinaryApp(_, x, y) =>
        u0 := ExactTranslationExists(y, u0);
        u0 := ExactTranslationExists(x, u0);
    }
    assert ([Flip(false)] + u0)[1..] == u0;
  }

  lemma {:induction false} ExactTranslationsExist(es: seq<Expr>, rest: Unstructured) returns (u: Unstructured)
    ensures ResidualsOf(es, u).Ok? && ResidualsOf(es, u).value.1 == rest
    ensures forall r <- ResidualsOf(es, u).value.0 :: ErrorFree(r)
    decreases es, 0
  {
    u := rest;
    if es != [] {
      u := ExactTranslationsExist(es[1..], u);
      u := ExactTranslationExists(es[0], u);
    }
  }
}

/** Exactly which residuals the translation of an expression produces. */
module ResidualOutcomes {
  import opened Wrappers
  import opened Choices
  import opened Residuals

  /** The residual is an error, or a node like the expression over residuals of its parts.  Unknowns and
      slots become `true`. */
  ghost predicate Translates(e: Expr, r: Residual)
    decreases e, 1
  {
    || r == Error(BOOL)
    || match e
       case Lit(v) => r == Concrete(v, BOOL)
       case Unknown(_) => r == Concrete(BoolValue(true), BOOL)
       case Slot(_) => r == Concrete(BoolValue(true), BOOL)
       case _ => r.Partial? && r.ty == BOOL && LikeNode(e, r.kind)
  }

  ghost predicate LikeNode(e: Expr, k: Kind)
    decreases e, 0
  {
    match e
    case VarExpr(x) => k == KVar(x)
    case If(test, thn, els) =>
      k.KIf? && Translates(test, k.test) && Translates(thn, k.thn) && Translates(els, k.els)
    case And(left, right) => k.KAnd? && Translates(left, k.left) && Translates(right, k.right)
    case Or(left, right) => k.KOr? && Translates(left, k.left) && Translates(right, k.right)
    case UnaryApp(op, arg) => k.KUnaryApp? && k.uop == op && Translates(arg, k.arg)
    case BinaryApp(op, arg1, arg2) =>
      k.KBinaryApp? && k.bop == op && Translates(arg1, k.arg1) && Translates(arg2, k.arg2)
    case GetAttr(x, attr) => k.KGetAttr? && k.attr == attr && Translates(x, k.e)
    case HasAttr(x, attr) => k.KHasAttr? && k.attr == attr && Translates(x, k.e)
    case ExtHasAttr(x, attrs) => k.KExtHasAttr? && k.attrs == attrs && Translates(x, k.e)
    case Like(x, pattern) => k.KLike? && k.pattern == pattern && Translates(x, k.e)
    case Is(x, entityType) => k.KIs? && k.entityType == entityType && Translates(x, k.e)
    case Set(items) => k.KSet? && AllTranslate(items, k.items)
    case Record(keys, items) => k.KRecord? && k.keys == keys && AllTranslate(items, k.items)
    case ExtCall(fn, items) => k.KExtCall? && k.fn == fn && AllTranslate(items, k.items)
    case _ => false
  }

  ghost predicate AllTranslate(es: seq<Expr>, rs: seq<Residual>)
    decreases es
  {
    |rs| == |es| && forall i | 0 <= i < |es| :: Translates(es[i], rs[i])
  }

  // ----- what is produced translates -----

  /** A "yes" coin injects an error, and a "no" coin none here. */
  lemma {:induction false} ResidualOutcome(e: Expr, u: Unstructured)
    requires ResidualOf(e, u).Ok?
    ensures Translates(e, ResidualOf(e, u).value.0)
    ensures ReadFlip(u).value.0 <==> ResidualOf(e, u).value.0.Error?
    decreases e, 1
  {
    var (inject, u0) := ReadFlip(u).value;
    if !inject {
      if HasItems(e) {
        ResidualsOutcome(e.items, u0);
      } else if HasOneArgument(e) {
        ResidualOutcome(if e.UnaryApp? then e.arg else e.e, u0);
      } else if Branches(e) || e.BinaryApp? {
        SeveralOutcome(e, u0);
      }
    }
  }

  lemma {:induction false} SeveralOutcome(e: Expr, u0: Unstructured)
    requires (Branches(e) || e.BinaryApp?) && ResidualOf(e, [Flip(false)] + u0).Ok?
    ensures Translates(e, ResidualOf(e, [Flip(false)] + u0).value.0)
    decreases e, 0
  {
    assert ([Flip(false)] + u0)[1..] == u0;
    match e
    case If(test, thn, els) =>
      ResidualOutcome(test, u0);
      var u1 := ResidualOf(test, u0).value.1;
      ResidualOutcome(thn, u1);
      ResidualOutcome(els, ResidualOf(thn, u1).value.1);
    case And(left, right) =>
      ResidualOutcome(left, u0);
      ResidualOutcome(right, ResidualOf(left, u0).value.1);
    case Or(left, right) =>
      ResidualOutcome(left, u0);
      ResidualOutcome(right, ResidualOf(left, u0).value.1);
    case BinaryApp(_, arg1, arg2) =>
      ResidualOutcome(arg1, u0);
      ResidualOutcome(arg2, ResidualOf(arg1, u0).value.1);
  }

  lemma {:induction false} ResidualsOutcome(es: seq<Expr>, u: Unstructured)
    requires ResidualsOf(es, u).Ok?
    ensures AllTranslate(es, ResidualsOf(es, u).value.0)
    decreases es
  {
    if es != [] {
      ResidualOutcome(es[0], u);
      ResidualsOutcome(es[1..], ResidualOf(es[0], u).value.1);
    }
  }

  // ----- every translation is produced -----

  lemma {:induction false} DrawResidual(e: Expr, r: Residual, rest: Unstructured) returns (u: Unstructured)
    requires Translates(e, r)
    ensures ResidualOf(e, u) == Ok((r, rest))
    decreases e, 1
  {
    if r == Error(BOOL) {
      u := [Flip(true)] + rest;
    } else {
      var u0 := rest;
      if HasItems(e) {
        u0 := DrawResiduals(e.items, r.kind.items, rest);
      } else if HasOneArgument(e) {
        u0 := DrawArgument(e, r.kind, rest);
      } else if Branches(e) || e.BinaryApp? {
        u0 := DrawSeveral(e, r.kind, rest);
      }
      u := [Flip(false)] + u0;
      assert u[1..] == u0;
    }
  }

  lemma {:induction false} DrawArgument(e: Expr, k: Kind, rest: Unstructured) returns (u0: Unstructured)
    requires HasOneArgument(e) && LikeNode(e, k)
    ensures ResidualOf(e, [Flip(false)] + u0) == Ok((Partial(k, BOOL), rest))
    decreases e, 0
  {
    u0 := DrawResidual(if e.UnaryApp? then e.arg else e.e, if e.UnaryApp? then k.arg else k.e, rest);
    assert ([Flip(false)] + u0)[1..] == u0;
  }

  lemma {:induction false} DrawSeveral(e: Expr, k: Kind, rest: Unstructured) returns (u0: Unstructured)
    requires (Branches(e) || e.BinaryApp?) && LikeNode(e, k)
    ensures ResidualOf(e, [Flip(false)] + u0) == Ok((Partial(k, BOOL), rest))
    decreases e, 0
  {
    match e {
      case If(test, thn, els) =>
        u0 := DrawResidual(els, k.els, rest);
        u0 := DrawResidual(thn, k.thn, u0);
        u0 := DrawResidual(test, k.test, u0);
      case And(left, right) =>
        u0 := DrawResidual(right, k.right, rest);
        u0 := DrawResidual(left, k.left, u0);
      case Or(left, right) =>
        u0 := DrawResidual(right, k.right, rest);
        u0 := DrawResidual(left, k.left, u0);
      case BinaryApp(_, arg1, arg2) =>
        u0 := DrawResidual(arg2, k.arg2, rest);
        u0 := DrawResidual(arg1, k.arg1, u0);
    }
    assert ([Flip(false)] + u0)[1..] == u0;
  }

  lemma {:induction false} DrawResiduals(es: seq<Expr>, rs: seq<Residual>, rest: Unstructured)
    returns (u: Unstructured)
    requires AllTranslate(es, rs)
    ensures ResidualsOf(es, u) == Ok((rs, rest))
    decreases es
  {
    u := rest;
    if es != [] {
      var u1 := DrawResiduals(es[1..], rs[1..], rest);
      u := DrawResidual(es[0], rs[0], u1);
      assert rs == [rs[0]] + rs[1..];
    }
  }

  /** Exactly which residuals a run produces: the expression node by node, with errors in place of any of
      its parts. */
  lemma TranslationIff(e: Expr, r: Residual)
    ensures Translates(e, r) <==> exists u :: ResidualOf(e, u).Ok? && ResidualOf(e, u).value.0 == r
  {
    if Translates(e, r) {
      var u := DrawResidual(e, r, []);
      assert ResidualOf(e, u).Ok?;
    }
    if u :| ResidualOf(e, u).Ok? && ResidualOf(e, u).value.0 == r {
      ResidualOutcome(e, u);
    }
  }
}

/** Exactly which expressions the generator of policy conditions produces. */
module PolicyExprOutcomes {
  import opened Wrappers
  import opened Choices
  import opened PolicyExprs

  /** No slots, at most `depth` levels, collections and patterns up to the width */
  ghost predicate CanDraw(e: Expr, depth: nat, width: nat)
    decreases e
  {
    match e
    case Lit(lit) => lit.LongLit? ==> -0x8000_0000_0000_0000 <= lit.i < 0x8000_0000_0000_0000
    case VarExpr(_) => true
    case SlotExpr(_) => false
    case Unary(_, x) => depth > 0 && CanDraw(x, depth - 1, width)
    case Binary(_, x, y) => depth > 0 && CanDraw(x, depth - 1, width) && CanDraw(y, depth - 1, width)
    case GetAttr(x, _) => depth > 0 && CanDraw(x, depth - 1, width)
    case HasAttr(x, attrs) => depth > 0 && CanDraw(x, depth - 1, width) && 1 <= |attrs| <= 5
    case Like(x, pattern) => depth > 0 && CanDraw(x, depth - 1, width) && |pattern| <= width
    case Is(x, _, y) =>
      depth > 0 && CanDraw(x, depth - 1, width) && (y.Some? ==> CanDraw(y.value, depth - 1, width))
    case IfThenElse(x, y, z) =>
      && depth > 0 && CanDraw(x, depth - 1, width) && CanDraw(y, depth - 1, width) && CanDraw(z, depth - 1, width)
    case SetExpr(elems) => depth > 0 && |elems| <= width && forall x <- elems :: CanDraw(x, depth - 1, width)
    case RecordExpr(entries) =>
      depth > 0 && |entries| <= width && forall k | k in entries :: CanDraw(entries[k], depth - 1, width)
  }

  // ----- what is drawn can be -----

  lemma {:induction false} TextsLength(n: nat, u: Unstructured)
    requires ArbitraryTexts(n, u).Ok?
    ensures |ArbitraryTexts(n, u).value.0| == n
  {
    if n > 0 { TextsLength(n - 1, ReadText(u).value.1); }
  }

  lemma {:induction false} PatternLength(n: nat, u: Unstructured)
    requires ArbitraryPattern(n, u).Ok?
    ensures |ArbitraryPattern(n, u).value.0| <= n
  {
    if n > 0 && ReadFlip(u).value.0 {
      PatternLength(n - 1, ArbitraryPatternElem(ReadFlip(u).value.1).value.1);
    }
  }

  lemma {:induction false} ExprOutcome(depth: nat, width: nat, u: Unstructured)
    requires ArbitraryExpr(depth, width, u).Ok?
    ensures CanDraw(ArbitraryExpr(depth, width, u).value.0, depth, width)
    decreases depth, 2, 0
  {
    if depth > 0 {
      var (x, u1) := ReadIndex(u, 15).value;
      if 4 <= x < 7 { OperationOutcome(x == 4, depth, width, u1); }
      else if 7 <= x < 12 { OnOneOutcome(x, depth, width, u1); }
      else if x == 12 { ConditionalOutcome(depth, width, u1); }
      else if x == 13 { ElemsOutcome(width, depth - 1, width, u1); }
      else if x == 14 { EntriesOutcome(width, map[], depth - 1, width, u1); }
    }
  }

  lemma {:induction false} OperationOutcome(unary: bool, depth: nat, width: nat, u: Unstructured)
    requires depth > 0 && ArbitraryOperation(unary, depth, width, u).Ok?
    ensures CanDraw(ArbitraryOperation(unary, depth, width, u).value.0, depth, width)
    decreases depth, 1, 0
  {
    var u1 := ReadIndex(u, if unary then |UNARY_OPS| else |BINARY_OPS|).value.1;
    ExprOutcome(depth - 1, width, u1);
    if !unary { ExprOutcome(depth - 1, width, ArbitraryExpr(depth - 1, width, u1).value.1); }
  }

  lemma {:induction false} OnOneOutcome(kind: nat, depth: nat, width: nat, u: Unstructured)
    requires depth > 0 && ArbitraryOnOne(kind, depth, width, u).Ok?
    ensures CanDraw(ArbitraryOnOne(kind, depth, width, u).value.0, depth, width)
    decreases depth, 1, 0
  {
    ExprOutcome(depth - 1, width, u);
    var u1 := ArbitraryExpr(depth - 1, width, u).value.1;
    if kind == 9 {
      var (extra, u3) := ReadIndex(ReadText(u1).value.1, 4).value;
      TextsLength(extra + 1, u3);
    } else if kind == 10 {
      PatternLength(width, u1);
    } else if kind != 7 && kind != 8 {
      var (withIn, u3) := ReadFlip(ReadText(u1).value.1).value;
      if withIn { ExprOutcome(depth - 1, width, u3); }
    }
  }

  lemma {:induction false} ConditionalOutcome(depth: nat, width: nat, u: Unstructured)
    requires depth > 0 && ArbitraryConditional(depth, width, u).Ok?
    ensures CanDraw(ArbitraryConditional(depth, width, u).value.0, depth, width)
    decreases depth, 1, 0
  {
    ExprOutcome(depth - 1, width, u);
    var u1 := ArbitraryExpr(depth - 1, width, u).value.1;
    ExprOutcome(depth - 1, width, u1);
    ExprOutcome(depth - 1, width, ArbitraryExpr(depth - 1, width, u1).value.1);
  }

  lemma {:induction false} ElemsOutcome(n: nat, depth: nat, width: nat, u: Unstructured)
    requires ArbitraryElems(n, depth, width, u).Ok?
    ensures var elems := ArbitraryElems(n, depth, width, u).value.0;
            |elems| <= n && forall x <- elems :: CanDraw(x, depth, width)
    decreases depth, 3, n
  {
    if n > 0 && ReadFlip(u).value.0 {
      var u1 := ReadFlip(u).value.1;
      ExprOutcome(depth, width, u1);
      ElemsOutcome(n - 1, depth, width, ArbitraryExpr(depth, width, u1).value.1);
    }
  }

  lemma {:induction false} EntriesOutcome(
      n: nat, entries: map<string, Expr>, depth: nat, width: nat, u: Unstructured)
    requires (forall k | k in entries :: CanDraw(entries[k], depth, width))
    requires ArbitraryEntries(n, entries, depth, width, u).Ok?
    ensures var all := ArbitraryEntries(n, entries, depth, width, u).value.0;
            |all| <= |entries| + n && forall k | k in all :: CanDraw(all[k], depth, width)
    decreases depth, 3, n
  {
    if n > 0 && ReadFlip(u).value.0 {
      var (key, u2) := ReadText(ReadFlip(u).value.1).value;
      ExprOutcome(depth, width, u2);
      var (x, u3) := ArbitraryExpr(depth, width, u2).value;
      assert entries[key := x].Keys == entries.Keys + {key};
      EntriesOutcome(n - 1, entries[key := x], depth, width, u3);
    }
  }

  // ----- what can be is drawn -----

  lemma DrawTexts(texts: seq<string>, rest: Unstructured) returns (u: Unstructured)
    ensures ArbitraryTexts(|texts|, u) == Ok((texts, rest))
  {
    u := rest;
    if texts != [] {
      var u1 := DrawTexts(texts[1..], rest);
      u := [Text(texts[0])] + u1;
      assert u[1..] == u1 && texts == [texts[0]] + texts[1..];
    }
  }

  lemma ScalarNumber(c: char) returns (n: nat)
    ensures n < 0x10F800 && Scalar(n) == c
  {
    n := if c as nat < 0xD800 then c as nat else c as nat - 0x800;
  }

  lemma DrawPattern(n: nat, pattern: seq<Option<char>>, rest: Unstructured) returns (u: Unstructured)
    requires |pattern| <= n
    ensures ArbitraryPattern(n, u) == Ok((pattern, rest))
    decreases n
  {
    if pattern == [] {
      u := if n == 0 then rest else [Flip(false)] + rest;
    } else {
      var u1 := DrawPattern(n - 1, pattern[1..], rest);
      var elem := [Pick(3)];
      if pattern[0].Some? {
        var c := ScalarNumber(pattern[0].value);
        elem := [Pick(0), Pick(c)];
      }
      u := [Flip(true)] + (elem + u1);
      assert u[1..] == elem + u1;
      assert pattern[0].Some? ==> (elem + u1)[1..][1..] == u1;
      assert pattern[0].None? ==> (elem + u1)[1..] == u1;
      assert pattern == [pattern[0]] + pattern[1..];
    }
  }

  lemma DrawLiteral(lit: Literal, rest: Unstructured) returns (u: Unstructured)
    requires lit.LongLit? ==> -0x8000_0000_0000_0000 <= lit.i < 0x8000_0000_0000_0000
    ensures ArbitraryLiteral(u) == Ok((Lit(lit), rest))
  {
    var choices := match lit
      case BoolLit(b) => [Pick(0), Flip(b)]
      case LongLit(i) => [Pick(2), Pick(i + 0x8000_0000_0000_0000)]
      case StringLit(s) => [Pick(4), Text(s)]
      case UidLit(uid) => [Pick(6), Text(uid)];
    u := choices + rest;
    assert u[1..][1..] == rest;
  }

  lemma DrawVar(v: Var, rest: Unstructured) returns (u: Unstructured)
    ensures ArbitraryVar(u) == Ok((VarExpr(v), rest))
  {
    u := [Pick(match v case Principal => 0 case Action => 1 case Resource => 2 case Context => 3)] + rest;
    assert u[1..] == rest;
  }

  lemma UnaryNumber(op: UnaryOp) returns (n: nat)
    ensures n < |UNARY_OPS| && UNARY_OPS[n] == op
  {
    n := match op case Not => 0 case Neg => 1 case IsEmpty => 2;
  }

  lemma BinaryNumber(op: BinaryOp) returns (n: nat)
    ensures n < |BINARY_OPS| && BINARY_OPS[n] == op
  {
    n := match op
      case Eq => 0 case NotEq => 1 case Less => 2 case LessEq => 3 case Greater => 4 case GreaterEq => 5
      case And => 6 case Or => 7 case Add => 8 case Sub => 9 case Mul => 10 case In => 11
      case Contains => 12 case ContainsAll => 13 case ContainsAny => 14 case GetTag => 15 case HasTag => 16;
  }

  lemma {:induction false} DrawExpr(e: Expr, depth: nat, width: nat, rest: Unstructured) returns (u: Unstructured)
    requires CanDraw(e, depth, width)
    ensures ArbitraryExpr(depth, width, u) == Ok((e, rest))
    decreases e, 2
  {
    var kind, u1 := 0, rest;
    if e.Lit? {
      u1 := DrawLiteral(e.lit, rest);
    } else if e.VarExpr? {
      kind := if depth == 0 then 3 else 2;
      u1 := DrawVar(e.v, rest);
    } else if e.Unary? || e.Binary? {
      kind := if e.Unary? then 4 else 5;
      u1 := DrawOperation(e, depth, width, rest);
    } else if OnOne(e) {
      kind, u1 := DrawOnOne(e, depth, width, rest);
    } else {
      kind, u1 := DrawParts(e, depth, width, rest);
    }
    u := [Pick(kind)] + u1;
    assert u[1..] == u1;
  }

  /** The forms with three parts or more */
  lemma {:induction false} DrawParts(e: Expr, depth: nat, width: nat, rest: Unstructured)
    returns (kind: nat, u: Unstructured)
    requires (e.IfThenElse? || e.SetExpr? || e.RecordExpr?) && CanDraw(e, depth, width)
    ensures 12 <= kind < 15 && depth > 0 && ArbitraryExpr(depth, width, [Pick(kind)] + u) == Ok((e, rest))
    decreases e, 1
  {
    if e.IfThenElse? {
      u := DrawConditional(e, depth, width, rest);
      kind := 12;
    } else if e.SetExpr? {
      u := DrawElems(width, e.elems, depth - 1, width, rest);
      kind := 13;
    } else {
      u := DrawEntries(width, e, map[], e.entries.Keys, depth - 1, width, rest);
      AllEntries(e.entries);
      kind := 14;
    }
    assert ([Pick(kind)] + u)[1..] == u;
  }

  lemma AllEntries(entries: map<string, Expr>)
    ensures map[] + (map k | k in entries.Keys :: entries[k]) == entries
  {
  }

  lemma {:induction false} DrawOperation(e: Expr, depth: nat, width: nat, rest: Unstructured) returns (u: Unstructured)
    requires (e.Unary? || e.Binary?) && CanDraw(e, depth, width)
    ensures ArbitraryOperation(e.Unary?, depth, width, u) == Ok((e, rest))
    decreases e, 0
  {
    var op, u1;
    if e.Unary? {
      op := UnaryNumber(e.uop);
      u1 := DrawExpr(e.e, depth - 1, width, rest);
    } else {
      op := BinaryNumber(e.bop);
      var u2 := DrawExpr(e.right, depth - 1, width, rest);
      u1 := DrawExpr(e.left, depth - 1, width, u2);
    }
    u := [Pick(op)] + u1;
    assert u[1..] == u1;
  }

  lemma {:induction false} DrawConditional(e: Expr, depth: nat, width: nat, rest: Unstructured)
    returns (u: Unstructured)
    requires e.IfThenElse? && CanDraw(e, depth, width)
    ensures ArbitraryConditional(depth, width, u) == Ok((e, rest))
    decreases e, 0
  {
    var u2 := DrawExpr(e.els, depth - 1, width, rest);
    var u1 := DrawExpr(e.thn, depth - 1, width, u2);
    u := DrawExpr(e.test, depth - 1, width, u1);
    ConditionalFrom(e, depth, width, u, u1, u2, rest);
  }

  lemma ConditionalFrom(
      e: Expr, depth: nat, width: nat, u: Unstructured, u1: Unstructured, u2: Unstructured, rest: Unstructured)
    requires e.IfThenElse? && depth > 0 && ArbitraryExpr(depth - 1, width, u) == Ok((e.test, u1))
    requires ArbitraryExpr(depth - 1, width, u1) == Ok((e.thn, u2))
    requires ArbitraryExpr(depth - 1, width, u2) == Ok((e.els, rest))
    ensures ArbitraryConditional(depth, width, u) == Ok((e, rest))
  {
  }

  predicate OnOne(e: Expr) {
    e.GetAttr? || e.HasAttr? || e.Like? || e.Is?
  }

  lemma {:induction false} DrawOnOne(e: Expr, depth: nat, width: nat, rest: Unstructured)
    returns (kind: nat, u: Unstructured)
    requires OnOne(e) && CanDraw(e, depth, width)
    ensures 7 <= kind < 12 && ArbitraryOnOne(kind, depth, width, u) == Ok((e, rest))
    decreases e, 0
  {
    var u1;
    match e {
      case GetAttr(_, attr) => kind, u1 := 7, [Text(attr)] + rest;
      case HasAttr(_, attrs) =>
        if |attrs| == 1 {
          kind, u1 := 8, [Text(attrs[0])] + rest;
          assert attrs == [attrs[0]];
        } else {
          var u2 := DrawTexts(attrs[1..], rest);
          kind, u1 := 9, [Text(attrs[0]), Pick(|attrs| - 2)] + u2;
          assert u1[1..][1..] == u2 && attrs == [attrs[0]] + attrs[1..];
        }
      case Like(_, pattern) =>
        u1 := DrawPattern(width, pattern, rest);
        kind := 10;
      case Is(_, ty, y) =>
        kind := 11;
        if y.Some? {
          var u2 := DrawExpr(y.value, depth - 1, width, rest);
          u1 := [Text(ty), Flip(true)] + u2;
          assert u1[1..][1..] == u2;
        } else {
          u1 := [Text(ty), Flip(false)] + rest;
          assert u1[1..][1..] == rest;
        }
    }
    u := DrawExpr(e.e, depth - 1, width, u1);
  }

  lemma {:induction false} DrawElems(n: nat, elems: seq<Expr>, depth: nat, width: nat, rest: Unstructured)
    returns (u: Unstructured)
    requires |elems| <= n && forall x <- elems :: CanDraw(x, depth, width)
    ensures ArbitraryElems(n, depth, width, u) == Ok((elems, rest))
    decreases elems
  {
    if elems == [] {
      u := if n == 0 then rest else [Flip(false)] + rest;
    } else {
      var u2 := DrawElems(n - 1, elems[1..], depth, width, rest);
      var u1 := DrawExpr(elems[0], depth, width, u2);
      u := [Flip(true)] + u1;
      assert u[1..] == u1 && elems == [elems[0]] + elems[1..];
    }
  }

  lemma NoEntries(all: map<string, Expr>, entries: map<string, Expr>, keys: set<string>)
    requires keys <= all.Keys && keys == {}
    ensures entries + (map k | k in keys :: all[k]) == entries
  {
  }

  lemma EntryFirst(all: map<string, Expr>, entries: map<string, Expr>, keys: set<string>, key: string)
    requires keys <= all.Keys && key in keys
    ensures entries[key := all[key]] + (map k | k in keys - {key} :: all[k]) == entries + (map k | k in keys :: all[k])
  {
  }

  /** The entries of a record expression under the given keys */
  lemma {:induction false} DrawEntries(
      n: nat, e: Expr, entries: map<string, Expr>, keys: set<string>, depth: nat, width: nat, rest: Unstructured)
    returns (u: Unstructured)
    requires e.RecordExpr? && keys <= e.entries.Keys && |keys| <= n
    requires forall k | k in e.entries :: CanDraw(e.entries[k], depth, width)
    ensures ArbitraryEntries(n, entries, depth, width, u)
         == Ok((entries + (map k | k in keys :: e.entries[k]), rest))
    decreases e, 0, keys
  {
    if keys == {} {
      u := if n == 0 then rest else [Flip(false)] + rest;
      assert ([Flip(false)] + rest)[1..] == rest;
      NoEntries(e.entries, entries, keys);
    } else {
      var key :| key in keys;
      var x := e.entries[key];
      var u3 := DrawEntries(n - 1, e, entries[key := x], keys - {key}, depth, width, rest);
      var u2 := DrawExpr(x, depth, width, u3);
      u := [Flip(true), Text(key)] + u2;
      assert u[1..][1..] == u2;
      EntryFirst(e.entries, entries, keys, key);
    }
  }

  /** Exactly the expressions without slots whose depth, widths and numbers are within bounds are drawn. */
  lemma ExprIff(e: Expr, depth: nat, width: nat)
    ensures CanDraw(e, depth, width)
       <==> exists u :: ArbitraryExpr(depth, width, u).Ok? && ArbitraryExpr(depth, width, u).value.0 == e
  {
    if CanDraw(e, depth, width) {
      var u := DrawExpr(e, depth, width, []);
      assert ArbitraryExpr(depth, width, u).Ok?;
    }
    if u :| ArbitraryExpr(depth, width, u).Ok? && ArbitraryExpr(depth, width, u).value.0 == e {
      ExprOutcome(depth, width, u);
    }
  }
}

/** Exactly which values the value generator produces, and what each choice of a run contributes to a set
    or a record. */
module AttrValueOutcomes {
  import opened Wrappers
  import opened Choices
  import opened SchemaTypes
  import opened AttrValues
  import opened AttrValueRuns
  import Hierarchies

  // ----- the values of a type -----

  /** An entity of the hierarchy, or a made-up one: of an enumerated type, one of its choices */
  ghost predicate CanBeUid(s: Settings, ty: Name, v: Value) {
    && v.UidLit?
    && ((v.ty == ty && (ty in s.enumChoices ==> v.eid in s.enumChoices[ty]))
        || (s.uidsByType.Some? && ty in s.uidsByType.value
            && Hierarchies.EntityUid(v.ty, v.eid) in s.uidsByType.value[ty]))
  }

  predicate IsTextCall(v: Value, fn: string) {
    v.ExtFuncCall? && v.fn == fn && |v.args| == 1 && v.args[0].StringLit?
  }

  /** A constructor call for the extension type, on texts; a datetime may also be an offset from one */
  predicate CanBeExtCall(ty: Type, v: Value) {
    match ty
    case IpAddrType => IsTextCall(v, "ip")
    case DecimalType => IsTextCall(v, "decimal")
    case DurationType => IsTextCall(v, "duration")
    case DateTimeType =>
      || IsTextCall(v, "datetime")
      || (v.ExtFuncCall? && v.fn == "offset" && |v.args| == 2
          && IsTextCall(v.args[0], "datetime") && IsTextCall(v.args[1], "duration"))
    case _ => false
  }

  /** What a run can produce for the type at the depth */
  ghost predicate CanBe(s: Settings, ty: Type, depth: nat, v: Value)
    decreases ty
  {
    match ty
    case BoolType => v.BoolLit?
    case LongType => v.IntLit? && -0x8000_0000_0000_0000 <= v.i < 0x8000_0000_0000_0000
    case StringType => v.StringLit?
    case EntityType(name) => CanBeUid(s, name, v)
    case SetType(element) =>
      && v.SetLit?
      && if depth == 0 then v.elts == []
         else |v.elts| <= s.maxWidth && forall e <- v.elts :: CanBe(s, element, depth - 1, e)
    case RecordType(fields) =>
      && v.RecordLit?
      && if depth == 0 then v.attrs == map[]
         else
           && (forall k | k in v.attrs :: exists f <- fields :: f.key == k)
           && forall f <- fields ::
                if f.key in v.attrs then CanBe(s, f.ty, depth - 1, v.attrs[f.key]) else !f.required
    case _ => depth > 0 && s.matchTypes && CanBeExtCall(ty, v)
  }

  // ----- runs of the loops -----

  /** One "yes" coin and one element, from `u` to `rest` */
  ghost predicate ElementRead<T>(draw: Draw<T>, u: Unstructured, v: T, rest: Unstructured) {
    ReadFlip(u).Ok? && ReadFlip(u).value.0 && draw(ReadFlip(u).value.1) == Ok((v, rest))
  }

  /** The elements read one after the other, from `us[0]` on; `us[i]` is what is left before the `i`-th.
      Then a "no" coin, unless there are `n` elements. */
  ghost predicate ElementsRead<T>(
      draw: Draw<T>, n: nat, us: seq<Unstructured>, elts: seq<T>, rest: Unstructured)
  {
    && |us| == |elts| + 1 && |elts| <= n
    && (forall i | 0 <= i < |elts| :: ElementRead(draw, us[i], elts[i], us[i + 1]))
    && (if |elts| == n then us[|elts|] == rest else ReadFlip(us[|elts|]) == Ok((false, rest)))
  }

  /** `arbitrary_loop`, for any generator of elements */
  function Loop<T>(draw: Draw<T>, n: nat, l: seq<T>, u: Unstructured): Drawn<(seq<T>, Unstructured)>
    decreases n
  {
    if n == 0 then Ok((l, u))
    else
      var (more, u1) :- ReadFlip(u);
      if !more then Ok((l, u1))
      else
        var (v, u2) :- draw(u1);
        Loop(draw, n - 1, l + [v], u2)
  }

  function ElementOf(s: Settings, element: Type, depth: nat): Draw<Value> {
    u => GenerateValue(s, element, depth, u)
  }

  function AsSet(r: Drawn<(seq<Value>, Unstructured)>): Drawn<(Value, Unstructured)> {
    match r
    case Ok(drawn) => Ok((SetLit(drawn.0), drawn.1))
    case Err(e) => Err(e)
  }

  lemma {:induction false} ElementsAreLoop(
      s: Settings, element: Type, depth: nat, n: nat, l: seq<Value>, u: Unstructured)
    ensures GenerateElements(s, element, depth, n, l, u) == AsSet(Loop(ElementOf(s, element, depth), n, l, u))
    decreases n
  {
    if n > 0 && ReadFlip(u).Ok? && ReadFlip(u).value.0 {
      var r := GenerateValue(s, element, depth, ReadFlip(u).value.1);
      if r.Ok? { ElementsAreLoop(s, element, depth, n - 1, l + [r.value.0], r.value.1); }
    }
  }

  lemma ElementFirst<T>(
      draw: Draw<T>, n: nat, u: Unstructured, us: seq<Unstructured>, v: T, elts: seq<T>, rest: Unstructured)
    requires n > 0 && ElementsRead(draw, n - 1, us, elts, rest) && ElementRead(draw, u, v, us[0])
    ensures ElementsRead(draw, n, [u] + us, [v] + elts, rest)
  {
    forall i | 0 <= i < |elts| + 1
      ensures ElementRead(draw, ([u] + us)[i], ([v] + elts)[i], ([u] + us)[i + 1])
    {
      if i > 0 { assert ElementRead(draw, us[i - 1], elts[i - 1], us[i]); }
    }
  }

  lemma {:induction false} LoopOutcome<T>(draw: Draw<T>, n: nat, l: seq<T>, u: Unstructured)
    returns (us: seq<Unstructured>, elts: seq<T>)
    requires Loop(draw, n, l, u).Ok?
    ensures us != [] && us[0] == u && Loop(draw, n, l, u).value.0 == l + elts
    ensures ElementsRead(draw, n, us, elts, Loop(draw, n, l, u).value.1)
    decreases n
  {
    us, elts := [u], [];
    assert l + elts == l;
    if n > 0 && ReadFlip(u).value.0 {
      var (v, u2) := draw(ReadFlip(u).value.1).value;
      us, elts := LoopOutcome(draw, n - 1, l + [v], u2);
      ElementFirst(draw, n, u, us, v, elts, Loop(draw, n, l, u).value.1);
      assert l + ([v] + elts) == l + [v] + elts;
      us, elts := [u] + us, [v] + elts;
    }
  }

  lemma {:induction false} LoopFrom<T>(
      draw: Draw<T>, n: nat, l: seq<T>, us: seq<Unstructured>, elts: seq<T>, rest: Unstructured)
    requires ElementsRead(draw, n, us, elts, rest)
    ensures Loop(draw, n, l, us[0]) == Ok((l + elts, rest))
    decreases n
  {
    if elts == [] {
      assert l + elts == l;
    } else {
      assert ElementRead(draw, us[0], elts[0], us[1]);
      ElementsRest(draw, n, us, elts, rest);
      LoopFrom(draw, n - 1, l + [elts[0]], us[1..], elts[1..], rest);
      assert l + [elts[0]] + elts[1..] == l + elts;
    }
  }

  lemma ElementsRest<T>(draw: Draw<T>, n: nat, us: seq<Unstructured>, elts: seq<T>, rest: Unstructured)
    requires ElementsRead(draw, n, us, elts, rest) && elts != []
    ensures ElementsRead(draw, n - 1, us[1..], elts[1..], rest)
  {
    forall i | 0 <= i < |elts| - 1
      ensures ElementRead(draw, us[1..][i], elts[1..][i], us[1..][i + 1])
    {
      assert ElementRead(draw, us[i + 1], elts[i + 1], us[i + 2]);
    }
  }

  ghost predicate SetRead(
      s: Settings, element: Type, depth: nat, us: seq<Unstructured>, u: Unstructured, v: Value, rest: Unstructured)
  {
    && v.SetLit? && us != [] && us[0] == u
    && ElementsRead(ElementOf(s, element, depth), s.maxWidth, us, v.elts, rest)
  }

  lemma SetReadOf(s: Settings, element: Type, depth: nat, u: Unstructured) returns (us: seq<Unstructured>)
    requires GenerateValue(s, SetType(element), depth + 1, u).Ok?
    ensures var (v, rest) := GenerateValue(s, SetType(element), depth + 1, u).value;
            SetRead(s, element, depth, us, u, v, rest)
  {
    var elts;
    ElementsAreLoop(s, element, depth, s.maxWidth, [], u);
    us, elts := LoopOutcome(ElementOf(s, element, depth), s.maxWidth, [], u);
    assert [] + elts == elts;
  }

  lemma SetFromRead(
      s: Settings, element: Type, depth: nat, us: seq<Unstructured>, u: Unstructured, v: Value, rest: Unstructured)
    requires SetRead(s, element, depth, us, u, v, rest)
    ensures GenerateValue(s, SetType(element), depth + 1, u) == Ok((v, rest))
  {
    ElementsAreLoop(s, element, depth, s.maxWidth, [], u);
    LoopFrom(ElementOf(s, element, depth), s.maxWidth, [], us, v.elts, rest);
    assert [] + v.elts == v.elts;
  }

  /** A set value is the list of the elements read, one for each "yes" coin, in the order of reading. */
  lemma SetRunIff(s: Settings, element: Type, depth: nat, u: Unstructured, v: Value, rest: Unstructured)
    ensures GenerateValue(s, SetType(element), depth + 1, u) == Ok((v, rest))
       <==> exists us :: SetRead(s, element, depth, us, u, v, rest)
  {
    if GenerateValue(s, SetType(element), depth + 1, u) == Ok((v, rest)) {
      var us := SetReadOf(s, element, depth, u);
    }
    if us :| SetRead(s, element, depth, us, u, v, rest) {
      SetFromRead(s, element, depth, us, u, v, rest);
    }
  }

  /** What one field contributes: nothing if it is optional and its coin says no, and otherwise the
      value drawn for it */
  ghost predicate FieldRead(
      s: Settings, f: Field, depth: nat, u: Unstructured, drawn: Option<Value>, rest: Unstructured)
  {
    && ReadChosen(f.required, u).Ok?
    && var (chosen, u1) := ReadChosen(f.required, u).value;
    if chosen then drawn.Some? && GenerateValue(s, f.ty, depth, u1) == Ok((drawn.value, rest))
    else drawn.None? && u1 == rest
  }

  /** The fields read one after the other; `us[i]` is what is left before the `i`-th. */
  ghost predicate FieldsRead(
      s: Settings, fields: seq<Field>, depth: nat, us: seq<Unstructured>, drawn: seq<Option<Value>>)
  {
    && |us| == |fields| + 1 && |drawn| == |fields|
    && forall i | 0 <= i < |fields| :: FieldRead(s, fields[i], depth, us[i], drawn[i], us[i + 1])
  }

  /** The values drawn, each under the key of its field; of two fields with one key the later counts. */
  function Values(fields: seq<Field>, drawn: seq<Option<Value>>): map<string, Value>
    requires |drawn| == |fields|
  {
    if fields == [] then map[]
    else (if drawn[0].Some? then map[fields[0].key := drawn[0].value] else map[]) + Values(fields[1..], drawn[1..])
  }

  lemma {:induction false} FieldsOutcome(
      s: Settings, fields: seq<Field>, depth: nat, attrs: map<string, Value>, u: Unstructured)
    returns (us: seq<Unstructured>, drawn: seq<Option<Value>>)
    requires GenerateFields(s, fields, depth, attrs, u).Ok?
    ensures FieldsRead(s, fields, depth, us, drawn) && us[0] == u
    ensures GenerateFields(s, fields, depth, attrs, u) == Ok((RecordLit(attrs + Values(fields, drawn)), us[|fields|]))
    decreases fields
  {
    us, drawn := [u], [];
    assert attrs + map[] == attrs;
    if fields != [] {
      var (chosen, u1) := ReadChosen(fields[0].required, u).value;
      var first, u2, attrs' := None, u1, attrs;
      if chosen {
        var (v, u3) := GenerateValue(s, fields[0].ty, depth, u1).value;
        first, u2, attrs' := Some(v), u3, attrs[fields[0].key := v];
      }
      assert FieldRead(s, fields[0], depth, u, first, u2);
      var us', drawn' := FieldsOutcome(s, fields[1..], depth, attrs', u2);
      us, drawn := [u] + us', [first] + drawn';
      ReadFieldFirst(s, fields, depth, u, us', first, drawn');
      ValuesAfter(fields, drawn, attrs);
    }
  }

  lemma ReadFieldFirst(
      s: Settings, fields: seq<Field>, depth: nat, u: Unstructured, us: seq<Unstructured>, first: Option<Value>,
      drawn: seq<Option<Value>>)
    requires fields != [] && FieldsRead(s, fields[1..], depth, us, drawn)
    requires FieldRead(s, fields[0], depth, u, first, us[0])
    ensures FieldsRead(s, fields, depth, [u] + us, [first] + drawn)
  {
    forall i | 0 <= i < |fields|
      ensures FieldRead(s, fields[i], depth, ([u] + us)[i], ([first] + drawn)[i], ([u] + us)[i + 1])
    {
      if i > 0 { assert FieldRead(s, fields[1..][i - 1], depth, us[i - 1], drawn[i - 1], us[i]); }
    }
  }

  lemma ValuesAfter(fields: seq<Field>, drawn: seq<Option<Value>>, attrs: map<string, Value>)
    requires fields != [] && |drawn| == |fields|
    ensures attrs + Values(fields, drawn)
         == (if drawn[0].Some? then attrs[fields[0].key := drawn[0].value] else attrs)
            + Values(fields[1..], drawn[1..])
  {
  }

  lemma {:induction false} FieldsFrom(
      s: Settings, fields: seq<Field>, depth: nat, attrs: map<string, Value>, us: seq<Unstructured>,
      drawn: seq<Option<Value>>)
    requires FieldsRead(s, fields, depth, us, drawn)
    ensures GenerateFields(s, fields, depth, attrs, us[0])
         == Ok((RecordLit(attrs + Values(fields, drawn)), us[|fields|]))
    decreases fields
  {
    assert attrs + map[] == attrs;
    if fields != [] {
      assert FieldRead(s, fields[0], depth, us[0], drawn[0], us[1]);
      FieldsRest(s, fields, depth, us, drawn);
      var attrs' := if drawn[0].Some? then attrs[fields[0].key := drawn[0].value] else attrs;
      FieldsFrom(s, fields[1..], depth, attrs', us[1..], drawn[1..]);
      ValuesAfter(fields, drawn, attrs);
    }
  }

  lemma FieldsRest(
      s: Settings, fields: seq<Field>, depth: nat, us: seq<Unstructured>, drawn: seq<Option<Value>>)
    requires FieldsRead(s, fields, depth, us, drawn) && fields != []
    ensures FieldsRead(s, fields[1..], depth, us[1..], drawn[1..])
  {
    forall i | 0 <= i < |fields| - 1
      ensures FieldRead(s, fields[1..][i], depth, us[1..][i], drawn[1..][i], us[1..][i + 1])
    {
      assert FieldRead(s, fields[i + 1], depth, us[i + 1], drawn[i + 1], us[i + 2]);
    }
  }

  /** The record holds exactly the values drawn, each under the key of its field. */
  ghost predicate Holds(attrs: map<string, Value>, fields: seq<Field>, drawn: seq<Option<Value>>)
    requires |drawn| == |fields|
  {
    && (forall i | 0 <= i < |fields| :: (fields[i].key in attrs) == drawn[i].Some?)
    && (forall i | 0 <= i < |fields| && drawn[i].Some? :: attrs[fields[i].key] == drawn[i].value)
    && forall k | k in attrs :: exists f <- fields :: f.key == k
  }

  lemma {:induction false} ValuesHold(fields: seq<Field>, drawn: seq<Option<Value>>)
    requires |drawn| == |fields| && KeysOnce(fields)
    ensures Holds(Values(fields, drawn), fields, drawn)
  {
    if fields != [] {
      var rest := Values(fields[1..], drawn[1..]);
      assert KeysOnce(fields[1..]);
      ValuesHold(fields[1..], drawn[1..]);
      KeyNotLater(fields);
      HoldsFirst(rest, fields, drawn);
    }
  }

  lemma KeyNotLater(fields: seq<Field>)
    requires fields != [] && KeysOnce(fields)
    ensures forall f <- fields[1..] :: f.key != fields[0].key
  {
    forall f | f in fields[1..]
      ensures f.key != fields[0].key
    {
      var i :| 0 <= i < |fields[1..]| && fields[1..][i] == f;
      assert fields[i + 1] == f;
    }
  }

  lemma HoldsFirst(rest: map<string, Value>, fields: seq<Field>, drawn: seq<Option<Value>>)
    requires |drawn| == |fields| && fields != [] && Holds(rest, fields[1..], drawn[1..])
    requires forall f <- fields[1..] :: f.key != fields[0].key
    ensures Holds((if drawn[0].Some? then map[fields[0].key := drawn[0].value] else map[]) + rest, fields, drawn)
  {
    var all := (if drawn[0].Some? then map[fields[0].key := drawn[0].value] else map[]) + rest;
    forall i | 0 <= i < |fields|
      ensures (fields[i].key in all) == drawn[i].Some?
      ensures drawn[i].Some? ==> all[fields[i].key] == drawn[i].value
    {
      if i > 0 { assert fields[1..][i - 1] == fields[i] && drawn[1..][i - 1] == drawn[i] && fields[i] in fields[1..]; }
    }
    forall k | k in all
      ensures exists f <- fields :: f.key == k
    {
      if k in rest {
        var f :| f in fields[1..] && f.key == k;
        assert f in fields;
      } else {
        assert fields[0] in fields;
      }
    }
  }

  lemma HoldsUnique(a: map<string, Value>, b: map<string, Value>, fields: seq<Field>, drawn: seq<Option<Value>>)
    requires |drawn| == |fields| && Holds(a, fields, drawn) && Holds(b, fields, drawn)
    ensures a == b
  {
    forall k | k in a || k in b
      ensures k in a && k in b && a[k] == b[k]
    {
      var f :| f in fields && f.key == k;
      var i :| 0 <= i < |fields| && fields[i] == f;
    }
  }

  ghost predicate RecordRead(
      s: Settings, fields: seq<Field>, depth: nat, us: seq<Unstructured>, drawn: seq<Option<Value>>, u: Unstructured,
      v: Value, rest: Unstructured)
  {
    && FieldsRead(s, fields, depth, us, drawn) && us[0] == u && us[|fields|] == rest
    && v.RecordLit? && Holds(v.attrs, fields, drawn)
  }

  lemma RecordReadOf(s: Settings, fields: seq<Field>, depth: nat, u: Unstructured)
    returns (us: seq<Unstructured>, drawn: seq<Option<Value>>)
    requires KeysOnce(fields) && GenerateValue(s, RecordType(fields), depth + 1, u).Ok?
    ensures var (v, rest) := GenerateValue(s, RecordType(fields), depth + 1, u).value;
            RecordRead(s, fields, depth, us, drawn, u, v, rest)
  {
    us, drawn := FieldsOutcome(s, fields, depth, map[], u);
    ValuesHold(fields, drawn);
    assert map[] + Values(fields, drawn) == Values(fields, drawn);
  }

  lemma RecordFromRead(
      s: Settings, fields: seq<Field>, depth: nat, us: seq<Unstructured>, drawn: seq<Option<Value>>, u: Unstructured,
      v: Value, rest: Unstructured)
    requires KeysOnce(fields) && RecordRead(s, fields, depth, us, drawn, u, v, rest)
    ensures GenerateValue(s, RecordType(fields), depth + 1, u) == Ok((v, rest))
  {
    FieldsFrom(s, fields, depth, map[], us, drawn);
    ValuesHold(fields, drawn);
    HoldsUnique(v.attrs, Values(fields, drawn), fields, drawn);
    assert map[] + Values(fields, drawn) == Values(fields, drawn);
  }

  /** A record value holds exactly the values drawn for its required fields and for the optional ones
      with a "yes" coin. */
  lemma RecordRunIff(s: Settings, fields: seq<Field>, depth: nat, u: Unstructured, v: Value, rest: Unstructured)
    requires KeysOnce(fields)
    ensures GenerateValue(s, RecordType(fields), depth + 1, u) == Ok((v, rest))
       <==> exists us, drawn :: RecordRead(s, fields, depth, us, drawn, u, v, rest)
  {
    if GenerateValue(s, RecordType(fields), depth + 1, u) == Ok((v, rest)) {
      var us, drawn := RecordReadOf(s, fields, depth, u);
    }
    if us, drawn :| RecordRead(s, fields, depth, us, drawn, u, v, rest) {
      RecordFromRead(s, fields, depth, us, drawn, u, v, rest);
    }
  }

  // ----- what is produced can be -----

  lemma UidOutcome(s: Settings, ty: Name, u: Unstructured)
    requires ArbitraryUid(s, ty, u).Ok?
    ensures CanBeUid(s, ty, ArbitraryUid(s, ty, u).value.0)
  {
  }

  lemma TextCallOutcome(c: Constructor, text: string)
    requires c in CONSTRUCTORS && c.fn != "offset"
    ensures CanBeExtCall(c.result, ExtFuncCall(c.fn, [StringLit(text)]))
  {
    assert IsTextCall(ExtFuncCall(c.fn, [StringLit(text)]), c.fn);
  }

  lemma OffsetCallOutcome(c: Constructor, text: string, text': string)
    requires c in CONSTRUCTORS && c.fn == "offset"
    ensures CanBeExtCall(
              c.result,
              ExtFuncCall(c.fn,
                          [ExtFuncCall("datetime", [StringLit(text)]), ExtFuncCall("duration", [StringLit(text')])]))
  {
    ConstructorKinds(c);
    assert IsTextCall(ExtFuncCall("datetime", [StringLit(text)]), "datetime");
    assert IsTextCall(ExtFuncCall("duration", [StringLit(text')]), "duration");
  }

  lemma ExtCallOutcome(s: Settings, ty: Type, u: Unstructured)
    requires ArbitraryExtCall(s, ty, u).Ok?
    ensures s.matchTypes && CanBeExtCall(ty, ArbitraryExtCall(s, ty, u).value.0)
  {
    ConstructorsReturn(ty, 0);
    var choices := if s.matchTypes then ConstructorsFor(ty, 0) else [];
    var (i, u1) := ReadIndex(u, |choices|).value;
    var c := choices[i];
    assert c in choices;
    var (text, u2) := ReadText(u1).value;
    if c.fn == "offset" {
      OffsetCallOutcome(c, text, ReadText(u2).value.0);
    } else {
      TextCallOutcome(c, text);
    }
  }

  lemma {:induction false} ValueOutcome(s: Settings, ty: Type, depth: nat, u: Unstructured)
    requires UniqueKeys(ty) && GenerateValue(s, ty, depth, u).Ok?
    ensures CanBe(s, ty, depth, GenerateValue(s, ty, depth, u).value.0)
    decreases ty, 0
  {
    match ty
    case EntityType(name) => UidOutcome(s, name, u);
    case SetType(element) =>
      if depth > 0 {
        var (v, rest) := GenerateValue(s, ty, depth, u).value;
        var us := SetReadOf(s, element, depth - 1, u);
        ElementsCanBe(s, element, depth - 1, us, v.elts, rest);
      }
    case RecordType(fields) =>
      if depth > 0 {
        var (v, rest) := GenerateValue(s, ty, depth, u).value;
        var us, drawn := RecordReadOf(s, fields, depth - 1, u);
        FieldsCanBe(s, fields, depth - 1, us, drawn, v.attrs);
      }
    case BoolType =>
    case LongType =>
    case StringType =>
    case _ => ExtCallOutcome(s, ty, u);
  }

  lemma {:induction false} ElementsCanBe(
      s: Settings, element: Type, depth: nat, us: seq<Unstructured>, elts: seq<Value>, rest: Unstructured)
    requires UniqueKeys(element) && ElementsRead(ElementOf(s, element, depth), s.maxWidth, us, elts, rest)
    ensures forall e <- elts :: CanBe(s, element, depth, e)
    decreases element, 1
  {
    forall i | 0 <= i < |elts|
      ensures CanBe(s, element, depth, elts[i])
    {
      assert ElementRead(ElementOf(s, element, depth), us[i], elts[i], us[i + 1]);
      ValueOutcome(s, element, depth, ReadFlip(us[i]).value.1);
    }
  }

  lemma {:induction false} FieldsCanBe(
      s: Settings, fields: seq<Field>, depth: nat, us: seq<Unstructured>, drawn: seq<Option<Value>>,
      attrs: map<string, Value>)
    requires FieldsRead(s, fields, depth, us, drawn) && Holds(attrs, fields, drawn)
    requires forall f <- fields :: UniqueKeys(f.ty)
    ensures forall f <- fields :: if f.key in attrs then CanBe(s, f.ty, depth, attrs[f.key]) else !f.required
    decreases fields, 1
  {
    forall i | 0 <= i < |fields|
      ensures if fields[i].key in attrs then CanBe(s, fields[i].ty, depth, attrs[fields[i].key])
              else !fields[i].required
    {
      assert FieldRead(s, fields[i], depth, us[i], drawn[i], us[i + 1]);
      if drawn[i].Some? {
        ValueOutcome(s, fields[i].ty, depth, ReadChosen(fields[i].required, us[i]).value.1);
      }
    }
  }

  // ----- what can be is produced -----

  lemma DrawThisUid(s: Settings, ty: Name, v: Value, rest: Unstructured) returns (u: Unstructured)
    requires CanBeUid(s, ty, v)
    ensures ArbitraryUid(s, ty, u) == Ok((v, rest))
  {
    if v.ty == ty && (ty in s.enumChoices ==> v.eid in s.enumChoices[ty]) {
      var choice := Text(v.eid);
      if ty in s.enumChoices {
        var i :| 0 <= i < |s.enumChoices[ty]| && s.enumChoices[ty][i] == v.eid;
        choice := Pick(i);
      }
      var made := [choice] + rest;
      assert made[1..] == rest;
      u := if s.uidsByType.None? then made else [Flip(false)] + made;
      if s.uidsByType.Some? { assert u[1..] == made; }
    } else {
      var uids := s.uidsByType.value[ty];
      var i :| 0 <= i < |uids| && uids[i] == Hierarchies.EntityUid(v.ty, v.eid);
      u := [Flip(true), Pick(i)] + rest;
      assert u[1..][1..] == rest;
    }
  }

  lemma ConstructorChoices()
    ensures ConstructorsFor(IpAddrType, 0) == [CONSTRUCTORS[0]]
    ensures ConstructorsFor(DecimalType, 0) == [CONSTRUCTORS[1]]
    ensures ConstructorsFor(DateTimeType, 0) == [CONSTRUCTORS[2], CONSTRUCTORS[3]]
    ensures ConstructorsFor(DurationType, 0) == [CONSTRUCTORS[4]]
  {
    forall ty
      ensures ConstructorsFor(ty, 3) == (if ty == DateTimeType then [CONSTRUCTORS[3]] else [])
                                      + (if ty == DurationType then [CONSTRUCTORS[4]] else [])
    {
      assert ConstructorsFor(ty, 5) == [];
      assert ConstructorsFor(ty, 4) == if ty == DurationType then [CONSTRUCTORS[4]] else [];
    }
    forall ty
      ensures ConstructorsFor(ty, 1) == (if ty == DecimalType then [CONSTRUCTORS[1]] else [])
                                      + (if ty == DateTimeType then [CONSTRUCTORS[2]] else [])
                                      + ConstructorsFor(ty, 3)
    {
      assert ConstructorsFor(ty, 2) == (if ty == DateTimeType then [CONSTRUCTORS[2]] else []) + ConstructorsFor(ty, 3);
    }
  }

  lemma TextCallIs(v: Value, fn: string)
    requires IsTextCall(v, fn)
    ensures v == ExtFuncCall(fn, [StringLit(v.args[0].s)])
  {
    assert v.args == [StringLit(v.args[0].s)];
  }

  lemma OffsetIs(v: Value)
    requires CanBeExtCall(DateTimeType, v) && v.fn == "offset"
    ensures v == ExtFuncCall("offset", [ExtFuncCall("datetime", [StringLit(v.args[0].args[0].s)]),
                                        ExtFuncCall("duration", [StringLit(v.args[1].args[0].s)])])
  {
    TextCallIs(v.args[0], "datetime");
    TextCallIs(v.args[1], "duration");
    assert v.args == [v.args[0], v.args[1]];
  }

  /** The place of the constructor among those of the type */
  lemma ConstructorPlace(ty: Type, v: Value) returns (i: nat)
    requires CanBeExtCall(ty, v)
    ensures i < |ConstructorsFor(ty, 0)| && ConstructorsFor(ty, 0)[i].fn == v.fn
  {
    ConstructorChoices();
    i := if v.fn == "offset" then 1 else 0;
  }

  lemma DrawThisExtCall(s: Settings, ty: Type, v: Value, rest: Unstructured) returns (u: Unstructured)
    requires s.matchTypes && CanBeExtCall(ty, v)
    ensures ArbitraryExtCall(s, ty, u) == Ok((v, rest))
  {
    var i := ConstructorPlace(ty, v);
    if v.fn == "offset" {
      OffsetIs(v);
      u := [Pick(i), Text(v.args[0].args[0].s), Text(v.args[1].args[0].s)] + rest;
      assert u[1..][1..][1..] == rest;
    } else {
      TextCallIs(v, v.fn);
      u := [Pick(i), Text(v.args[0].s)] + rest;
      assert u[1..][1..] == rest;
    }
  }

  lemma {:induction false} DrawValue(s: Settings, ty: Type, depth: nat, v: Value, rest: Unstructured)
    returns (u: Unstructured)
    requires UniqueKeys(ty) && CanBe(s, ty, depth, v)
    ensures GenerateValue(s, ty, depth, u) == Ok((v, rest))
    decreases ty, 0
  {
    u := rest;
    match ty {
      case BoolType => u := [Flip(v.b)] + rest;
      case LongType => u := [Pick(v.i + 0x8000_0000_0000_0000)] + rest;
      case StringType => u := [Text(v.s)] + rest;
      case EntityType(name) => u := DrawThisUid(s, name, v, rest);
      case SetType(element) =>
        if depth > 0 {
          var us := DrawElements(s, element, depth - 1, s.maxWidth, v.elts, rest);
          u := us[0];
          SetFromRead(s, element, depth - 1, us, u, v, rest);
        }
      case RecordType(fields) =>
        if depth > 0 {
          var us, drawn := DrawFields(s, fields, depth - 1, v.attrs, rest);
          u := us[0];
          RecordFromRead(s, fields, depth - 1, us, drawn, u, v, rest);
        }
      case _ => u := DrawThisExtCall(s, ty, v, rest);
    }
  }

  lemma {:induction false} DrawElements(
      s: Settings, element: Type, depth: nat, n: nat, elts: seq<Value>, rest: Unstructured)
    returns (us: seq<Unstructured>)
    requires UniqueKeys(element) && |elts| <= n && forall e <- elts :: CanBe(s, element, depth, e)
    ensures us != [] && ElementsRead(ElementOf(s, element, depth), n, us, elts, rest)
    decreases element, 1, elts
  {
    if elts == [] {
      us := [if n == 0 then rest else [Flip(false)] + rest];
      assert ([Flip(false)] + rest)[1..] == rest;
    } else {
      var us' := DrawElements(s, element, depth, n - 1, elts[1..], rest);
      var u1 := DrawValue(s, element, depth, elts[0], us'[0]);
      us := [[Flip(true)] + u1] + us';
      assert ([Flip(true)] + u1)[1..] == u1 && elts == [elts[0]] + elts[1..];
      ElementFirst(ElementOf(s, element, depth), n, [Flip(true)] + u1, us', elts[0], elts[1..], rest);
    }
  }

  lemma {:induction false} DrawFields(
      s: Settings, fields: seq<Field>, depth: nat, attrs: map<string, Value>, rest: Unstructured)
    returns (us: seq<Unstructured>, drawn: seq<Option<Value>>)
    requires forall f <- fields :: UniqueKeys(f.ty)
    requires forall f <- fields :: if f.key in attrs then CanBe(s, f.ty, depth, attrs[f.key]) else !f.required
    ensures FieldsRead(s, fields, depth, us, drawn) && us[|fields|] == rest
    ensures forall i | 0 <= i < |fields| ::
              drawn[i] == if fields[i].key in attrs then Some(attrs[fields[i].key]) else None
    decreases fields
  {
    us, drawn := [rest], [];
    if fields != [] {
      assert fields[0] in fields;
      var us', drawn' := DrawFields(s, fields[1..], depth, attrs, rest);
      var u, first := DrawField(s, fields[0], depth, attrs, us'[0]);
      us, drawn := [u] + us', [first] + drawn';
      ReadFieldFirst(s, fields, depth, u, us', first, drawn');
      forall i | 0 <= i < |fields|
        ensures drawn[i] == if fields[i].key in attrs then Some(attrs[fields[i].key]) else None
      {
        if i > 0 { assert fields[i] == fields[1..][i - 1]; }
      }
    }
  }

  lemma {:induction false} DrawField(s: Settings, f: Field, depth: nat, attrs: map<string, Value>, rest: Unstructured)
    returns (u: Unstructured, drawn: Option<Value>)
    requires UniqueKeys(f.ty) && if f.key in attrs then CanBe(s, f.ty, depth, attrs[f.key]) else !f.required
    ensures drawn == if f.key in attrs then Some(attrs[f.key]) else None
    ensures FieldRead(s, f, depth, u, drawn, rest)
    decreases f, 1
  {
    if f.key in attrs {
      var u1 := DrawValue(s, f.ty, depth, attrs[f.key], rest);
      u, drawn := if f.required then u1 else [Flip(true)] + u1, Some(attrs[f.key]);
      assert ([Flip(true)] + u1)[1..] == u1;
    } else {
      u, drawn := [Flip(false)] + rest, None;
      assert u[1..] == rest;
    }
  }

  /** Exactly which values a run produces: sets are any lists, up to the width, of what can be for the
      element; records have what can be for every required field and for any of the optional ones. */
  lemma OutcomesIff(s: Settings, ty: Type, depth: nat, v: Value)
    requires UniqueKeys(ty)
    ensures CanBe(s, ty, depth, v)
       <==> exists u :: GenerateValue(s, ty, depth, u).Ok? && GenerateValue(s, ty, depth, u).value.0 == v
  {
    if CanBe(s, ty, depth, v) {
      var u := DrawValue(s, ty, depth, v, []);
      assert GenerateValue(s, ty, depth, u).Ok?;
    }
    if u :| GenerateValue(s, ty, depth, u).Ok? && GenerateValue(s, ty, depth, u).value.0 == v {
      ValueOutcome(s, ty, depth, u);
    }
  }
}

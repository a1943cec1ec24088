/** What terms mean, in the wire format, in the internal form, as messages and with shared subterms.

    An interpretation gives a value to literals, variables and collections, and to operators by their
    names.  Each of the four forms has an evaluator of its own, and the conversions between the forms
    keep the value under every interpretation. */
module TermMeaning {
  import opened Wrappers
  import opened Numerals
  import opened Terms
  import TermProofs

  // ----- interpretations -----

  datatype Sort =
    | BoolSort
    | BitsSort(width: nat)
    | TextSort
    | UidSort(ety: string)
    | ExtSort(name: string)
    | OptionSort(inner: Sort)
    | SetSort(inner: Sort)
    | RecordSort(fields: map<string, Sort>)

  datatype Literal =
    | BoolLit(b: bool)
    | BitsLit(width: nat, n: nat)
    | TextLit(s: string)
    | UidLit(ty: string, eid: string)
    | DecimalLit(d: int)
    | DatetimeLit(dt: int)
    | DurationLit(dur: int)
    | AddressLit(version: nat, addr: nat, prefix: Option<nat>)

  /** An operator by name, with its data; a wildcard of a pattern is `None` */
  datatype Symbol =
    | Named(name: string)
    | Function(id: string, arg: Sort, out: Sort)
    | Extend(bits: nat)
    | Attribute(attr: string)
    | Like(pattern: seq<Option<nat>>)
    | ExtNamed(name: string)

  datatype Interpretation<!V> = Interpretation(
    literal: Literal -> V,
    variable: (string, Sort) -> V,
    none: Sort -> V,
    some: V -> V,
    collect: (set<V>, Sort) -> V,
    record: map<string, V> -> V,
    apply: (Symbol, seq<V>, Sort) -> V)

  /** The names of the operators without data, as in the message schema */
  function BaseName<T, P>(op: Operator<T, P>): string
    requires !HasData(op)
  {
    match op
    case Not => "Not" case And => "And" case Or => "Or" case Eq => "Eq" case Ite => "Ite"
    case Bvneg => "Bvneg" case Bvadd => "Bvadd" case Bvsub => "Bvsub" case Bvmul => "Bvmul"
    case Bvsdiv => "Bvsdiv" case Bvudiv => "Bvudiv" case Bvsrem => "Bvsrem" case Bvsmod => "Bvsmod"
    case Bvurem => "Bvurem" case Bvshl => "Bvshl" case Bvlshr => "Bvlshr" case Bvslt => "Bvslt"
    case Bvsle => "Bvsle" case Bvult => "Bvult" case Bvule => "Bvule" case Bvnego => "Bvnego"
    case Bvsaddo => "Bvsaddo" case Bvssubo => "Bvssubo" case Bvsmulo => "Bvsmulo"
    case SetMember => "SetMember" case SetSubset => "SetSubset" case SetInter => "SetInter"
    case OptionGet => "OptionGet"
  }

  function ExtOpName(xop: ExtOp): string {
    match xop
    case DecimalVal => "DecimalVal" case IpaddrIsV4 => "IPaddrIsV4" case IpaddrAddrV4 => "IPaddrAddrV4"
    case IpaddrPrefixV4 => "IPaddrPrefixV4" case IpaddrAddrV6 => "IPaddrAddrV6"
    case IpaddrPrefixV6 => "IPaddrPrefixV6" case DatetimeVal => "DatetimeVal"
    case DatetimeOfBitVec => "DatetimeOfBitVec" case DurationVal => "DurationVal"
    case DurationOfBitVec => "DurationOfBitVec"
  }

  function ExtTypeName(xty: ExtType): string {
    match xty
    case IpAddrType => "IpAddrType" case DecimalType => "DecimalType" case DatetimeType => "DatetimeType"
    case DurationType => "DurationType"
  }

  // ----- evaluating wire terms -----

  /** Of two entries with one key the later counts. */
  function LastEntry<V>(keys: seq<string>, values: seq<V>): map<string, V>
    requires |keys| == |values|
  {
    if keys == [] then map[]
    else LastEntry(keys[..|keys| - 1], values[..|keys| - 1])[keys[|keys| - 1] := values[|keys| - 1]]
  }

  function FieldKeys(rty: seq<WireField>): seq<string> {
    seq(|rty|, i requires 0 <= i < |rty| => rty[i].key)
  }

  function WireSort(t: WireType): Sort
    decreases t
  {
    match t
    case PrimType(BoolPrim) => BoolSort
    case PrimType(BitvecPrim(n)) => BitsSort(n)
    case PrimType(StringPrim) => TextSort
    case PrimType(EntityPrim(ety)) => UidSort(ety)
    case PrimType(ExtPrim(xty)) => ExtSort(ExtTypeName(xty))
    case OptionType(ty) => OptionSort(WireSort(ty))
    case SetType(ty) => SetSort(WireSort(ty))
    case RecordType(rty) => RecordSort(LastEntry(FieldKeys(rty), WireSorts(rty)))
  }

  function WireSorts(rty: seq<WireField>): (r: seq<Sort>)
    ensures |r| == |rty|
    decreases rty
  {
    if rty == [] then [] else [WireSort(rty[0].ty)] + WireSorts(rty[1..])
  }

  /** The number of a numeral, most significant digit first */
  function Positional(s: string): nat
    requires AllDigits(s)
  {
    if s == [] then 0 else DigitValue(s[0]) * Pow10(|s| - 1) + Positional(s[1..])
  }

  /** The number modulo two to the width */
  function WireBitsNumber(b: WireBitvec): Option<nat> {
    if b.width == 0 || b.val == [] || !AllDigits(b.val) then None else Some(Positional(b.val) % Pow2(b.width))
  }

  function WireAddress(c: WireCidr, version: nat, addrWidth: nat, prefixWidth: nat): Option<Literal> {
    if c.addr.width != addrWidth || (c.prefix.Some? && c.prefix.value.width != prefixWidth) then None
    else
      var addr :- WireBitsNumber(c.addr);
      match c.prefix
      case None => Some(AddressLit(version, addr, None))
      case Some(p) =>
        var prefix :- WireBitsNumber(p);
        Some(AddressLit(version, addr, Some(prefix)))
  }

  function WireLiteral(p: WirePrim): Option<Literal> {
    match p
    case WireBool(b) => Some(BoolLit(b))
    case WireString(s) => Some(TextLit(s))
    case WireEntity(ty, eid) => Some(UidLit(ty, eid))
    case WireBits(bv) =>
      var n :- WireBitsNumber(bv);
      Some(BitsLit(bv.width, n))
    case WireExtension(WireDecimal(d)) => Some(DecimalLit(d))
    case WireExtension(WireDatetime(dt)) => Some(DatetimeLit(dt))
    case WireExtension(WireDuration(dur)) => Some(DurationLit(dur))
    case WireExtension(WireV4(c)) => WireAddress(c, 4, 32, 5)
    case WireExtension(WireV6(c)) => WireAddress(c, 6, 128, 7)
  }

  predicate Readable(pattern: seq<WirePattern>) {
    forall p <- pattern :: p.JustChar? ==> IsScalar(p.c)
  }

  function WireElems(pattern: seq<WirePattern>): seq<Option<nat>> {
    seq(|pattern|, i requires 0 <= i < |pattern| => if pattern[i].Star? then None else Some(pattern[i].c))
  }

  function WireSymbol(op: WireOp): Option<Symbol> {
    match op
    case Uuf(id, arg, out) => Some(Function(id, WireSort(arg), WireSort(out)))
    case ZeroExtend(n) => Some(Extend(n))
    case RecordGet(attr) => Some(Attribute(attr))
    case StringLike(pattern) =>
      if Readable(pattern) then Some(Like(WireElems(pattern))) else None
    case ExtensionOp(xop) => Some(ExtNamed(ExtOpName(xop)))
    case _ => Some(Named(BaseName(op)))
  }

  function Keys(entries: seq<WireEntry>): seq<string> {
    seq(|entries|, i requires 0 <= i < |entries| => entries[i].key)
  }

  /** No value where a literal or a pattern is malformed */
  ghost function EvalWire<V(!new)>(I: Interpretation<V>, t: WireTerm): Option<V>
    decreases t
  {
    match t
    case WPrim(p) =>
      var l :- WireLiteral(p);
      Some(I.literal(l))
    case WVar(id, ty) => Some(I.variable(id, WireSort(ty)))
    case WNone(ty) => Some(I.none(WireSort(ty)))
    case WSome(inner) =>
      var v :- EvalWire(I, inner);
      Some(I.some(v))
    case WSet(elts, eltsTy) =>
      var vs :- EvalWires(I, elts);
      Some(I.collect((set v | v in vs), WireSort(eltsTy)))
    case WRecord(entries) =>
      var vs :- EvalWireEntries(I, entries);
      Some(I.record(LastEntry(Keys(entries), vs)))
    case WApp(op, args, retTy) =>
      var symbol :- WireSymbol(op);
      var vs :- EvalWires(I, args);
      Some(I.apply(symbol, vs, WireSort(retTy)))
  }

  ghost function EvalWires<V(!new)>(I: Interpretation<V>, ts: seq<WireTerm>): (r: Option<seq<V>>)
    ensures r.Some? ==> |r.value| == |ts|
    decreases ts
  {
    if ts == [] then Some([])
    else
      var v :- EvalWire(I, ts[0]);
      var vs :- EvalWires(I, ts[1..]);
      Some([v] + vs)
  }

  ghost function EvalWireEntries<V(!new)>(I: Interpretation<V>, entries: seq<WireEntry>): (r: Option<seq<V>>)
    ensures r.Some? ==> |r.value| == |entries|
    decreases entries
  {
    if entries == [] then Some([])
    else
      var v :- EvalWire(I, entries[0].term);
      var vs :- EvalWireEntries(I, entries[1..]);
      Some([v] + vs)
  }

  // ----- evaluating internal terms -----

  function SortOf(t: Type): Sort
    decreases t
  {
    match t
    case BoolT => BoolSort
    case BitvecT(n) => BitsSort(n)
    case StringT => TextSort
    case EntityT(ety) => UidSort(ety)
    case ExtT(xty) => ExtSort(ExtTypeName(xty))
    case OptionT(ty) => OptionSort(SortOf(ty))
    case SetT(ty) => SetSort(SortOf(ty))
    case RecordT(rty) => RecordSort(map k | k in rty :: SortOf(rty[k]))
  }

  function AddressOf(c: Cidr, version: nat): Literal {
    AddressLit(version, c.addr.val, if c.prefix.None? then None else Some(c.prefix.value.val))
  }

  function LiteralOf(p: Prim): Literal {
    match p
    case Bool(b) => BoolLit(b)
    case Bits(bv) => BitsLit(bv.width, bv.val)
    case String(s) => TextLit(s)
    case Entity(ty, eid) => UidLit(ty, eid)
    case Extension(Decimal(d)) => DecimalLit(d)
    case Extension(Datetime(dt)) => DatetimeLit(dt)
    case Extension(Duration(dur)) => DurationLit(dur)
    case Extension(V4(c)) => AddressOf(c, 4)
    case Extension(V6(c)) => AddressOf(c, 6)
  }

  function Elems(pattern: seq<Pattern>): seq<Option<nat>> {
    seq(|pattern|, i requires 0 <= i < |pattern| => if pattern[i].Wildcard? then None else Some(pattern[i].c))
  }

  function SymbolOf(op: Op): Symbol {
    match op
    case Uuf(id, arg, out) => Function(id, SortOf(arg), SortOf(out))
    case ZeroExtend(n) => Extend(n)
    case RecordGet(attr) => Attribute(attr)
    case StringLike(pattern) => Like(Elems(pattern))
    case ExtensionOp(xop) => ExtNamed(ExtOpName(xop))
    case _ => Named(BaseName(op))
  }

  ghost function Eval<V(!new)>(I: Interpretation<V>, t: Term): V
    decreases t
  {
    match t
    case TPrim(p) => I.literal(LiteralOf(p))
    case TVar(id, ty) => I.variable(id, SortOf(ty))
    case TNone(ty) => I.none(SortOf(ty))
    case TSome(inner) => I.some(Eval(I, inner))
    case TSet(elts, eltsTy) => I.collect((set x | x in elts :: Eval(I, x)), SortOf(eltsTy))
    case TRecord(entries) => I.record(map k | k in entries :: Eval(I, entries[k]))
    case TApp(op, args, retTy) => I.apply(SymbolOf(op), Evals(I, args), SortOf(retTy))
  }

  ghost function Evals<V(!new)>(I: Interpretation<V>, ts: seq<Term>): (r: seq<V>)
    ensures |r| == |ts| && forall i | 0 <= i < |ts| :: r[i] == Eval(I, ts[i])
    decreases ts
  {
    if ts == [] then [] else [Eval(I, ts[0])] + Evals(I, ts[1..])
  }

  // ----- decoding keeps the value -----

  lemma {:induction false} LastEntryFirst<V>(k: string, v: V, keys: seq<string>, values: seq<V>)
    requires |keys| == |values|
    ensures LastEntry([k] + keys, [v] + values) == map[k := v] + LastEntry(keys, values)
  {
    var n := |keys|;
    assert ([k] + keys)[n] == if n == 0 then k else keys[n - 1];
    if n == 0 {
      assert ([k] + keys)[..0] == [] && ([v] + values)[..0] == [];
    } else {
      LastEntryFirst(k, v, keys[..n - 1], values[..n - 1]);
      assert ([k] + keys)[..n] == [k] + keys[..n - 1] && ([v] + values)[..n] == [v] + values[..n - 1];
    }
  }

  lemma {:induction false} SortKept(t: WireType)
    ensures SortOf(DecodeType(t)) == WireSort(t)
    decreases t
  {
    match t
    case OptionType(ty) => SortKept(ty);
    case SetType(ty) => SortKept(ty);
    case RecordType(rty) => SortsKept(rty);
    case _ =>
  }

  function SortMap(rty: map<string, Type>): map<string, Sort> {
    map k | k in rty :: SortOf(rty[k])
  }

  lemma SortMapFirst(k: string, t: Type, rest: map<string, Type>)
    ensures SortMap(map[k := t] + rest) == map[k := SortOf(t)] + SortMap(rest)
  {
  }

  lemma {:induction false} SortsKept(rty: seq<WireField>)
    ensures SortMap(DecodeFields(rty)) == LastEntry(FieldKeys(rty), WireSorts(rty))
    decreases rty
  {
    if rty != [] {
      SortKept(rty[0].ty);
      SortsKept(rty[1..]);
      assert FieldKeys(rty) == [rty[0].key] + FieldKeys(rty[1..]);
      LastEntryFirst(rty[0].key, WireSort(rty[0].ty), FieldKeys(rty[1..]), WireSorts(rty[1..]));
      SortMapFirst(rty[0].key, DecodeType(rty[0].ty), DecodeFields(rty[1..]));
    }
  }

  lemma TenTimes(d: nat, k: nat)
    requires k > 0
    ensures d * Pow10(k) == 10 * (d * Pow10(k - 1))
  {
  }

  lemma {:induction false} PositionalPush(s: string, c: char)
    requires AllDigits(s) && IsDigit(c)
    ensures AllDigits(s + [c]) && Positional(s + [c]) == 10 * Positional(s) + DigitValue(c)
  {
    if s == [] {
      assert s + [c] == [c];
      assert Positional([c]) == DigitValue(c) * Pow10(0) + Positional([]);
    } else {
      assert (s + [c])[1..] == s[1..] + [c];
      PositionalPush(s[1..], c);
      TenTimes(DigitValue(s[0]), |s|);
    }
  }

  lemma {:induction false} ValueIsPositional(s: string)
    requires AllDigits(s)
    ensures Value(s) == Positional(s)
  {
    if s != [] {
      var n := |s| - 1;
      assert s == s[..n] + [s[n]];
      ValueIsPositional(s[..n]);
      PositionalPush(s[..n], s[n]);
    }
  }

  lemma BitsKept(b: WireBitvec)
    ensures WireBitsNumber(b).Some? <==> DecodeBitvec(b).Ok?
    ensures DecodeBitvec(b).Ok? ==> DecodeBitvec(b).value == Bitvec(b.width, WireBitsNumber(b).value)
  {
    if AllDigits(b.val) { ValueIsPositional(b.val); }
  }

  function Success<T, E>(r: Result<T, E>): Option<T> {
    if r.Ok? then Some(r.value) else None
  }

  lemma AddressKept(c: WireCidr, version: nat, addrWidth: nat, prefixWidth: nat)
    ensures WireAddress(c, version, addrWidth, prefixWidth)
         == match DecodeCidr(c, addrWidth, prefixWidth)
            case Ok(c') => Some(AddressOf(c', version))
            case Err(_) => None
  {
    BitsKept(c.addr);
    if c.prefix.Some? { BitsKept(c.prefix.value); }
  }

  /** Literals denote what they decode to; a literal without meaning does not decode. */
  lemma LiteralKept(p: WirePrim)
    ensures WireLiteral(p) == match DecodePrim(p) case Ok(p') => Some(LiteralOf(p')) case Err(_) => None
  {
    match p
    case WireBits(bv) => BitsKept(bv);
    case WireExtension(WireV4(c)) => AddressKept(c, 4, 32, 5);
    case WireExtension(WireV6(c)) => AddressKept(c, 6, 128, 7);
    case _ =>
  }

  lemma {:induction false} PatternKept(pattern: seq<WirePattern>)
    ensures DecodePattern(pattern).Ok? <==> Readable(pattern)
    ensures DecodePattern(pattern).Ok? ==> Elems(DecodePattern(pattern).value) == WireElems(pattern)
  {
    if pattern != [] {
      PatternKept(pattern[1..]);
      assert pattern == [pattern[0]] + pattern[1..];
      assert Readable(pattern) <==> Readable([pattern[0]]) && Readable(pattern[1..]);
      if DecodePattern(pattern).Ok? {
        var rest := DecodePattern(pattern[1..]).value;
        assert Elems(DecodePattern(pattern).value)[1..] == Elems(rest);
        assert WireElems(pattern)[1..] == WireElems(pattern[1..]);
        assert Elems(DecodePattern(pattern).value)[0] == WireElems(pattern)[0];
      }
    }
  }

  lemma BaseNameKept(op: WireOp)
    requires !HasData(op)
    ensures BaseName<Type, Pattern>(Plain(op)) == BaseName(op)
  {
  }

  function DecodedSymbol(op: WireOp): Option<Symbol> {
    match DecodeOp(op)
    case Ok(op') => Some(SymbolOf(op'))
    case Err(_) => None
  }

  lemma DataKept(op: WireOp)
    requires HasData(op)
    ensures DecodedSymbol(op) == WireSymbol(op)
  {
    match op
    case Uuf(_, arg, out) =>
      SortKept(arg);
      SortKept(out);
    case StringLike(pattern) => PatternKept(pattern);
    case _ =>
  }

  lemma PlainSymbol(op: Op)
    requires !HasData(op)
    ensures SymbolOf(op) == Named(BaseName(op))
  {
  }

  lemma PlainKept(op: WireOp)
    requires !HasData(op)
    ensures DecodedSymbol(op) == WireSymbol(op)
  {
    BaseNameKept(op);
    PlainSymbol(Plain(op));
    assert DecodeOp(op) == Ok(Plain(op));
  }

  /** Every operator keeps its name and its data. */
  lemma SymbolKept(op: WireOp)
    ensures DecodedSymbol(op) == WireSymbol(op)
  {
    if HasData(op) { DataKept(op); } else { PlainKept(op); }
  }

  /** For every interpretation, a wire term has a value exactly when it decodes, and then decoding keeps
      the value. */
  lemma {:induction false} DecodeKeepsValue<V(!new)>(I: Interpretation<V>, t: WireTerm)
    ensures EvalWire(I, t) == match Decode(t) case Ok(t') => Some(Eval(I, t')) case Err(_) => None
    decreases t
  {
    match t
    case WPrim(p) => LiteralKept(p);
    case WVar(_, ty) => SortKept(ty);
    case WNone(ty) => SortKept(ty);
    case WSome(inner) => DecodeKeepsValue(I, inner);
    case WSet(elts, eltsTy) =>
      ValuesKept(I, elts);
      SetKept(I, elts, eltsTy);
    case WRecord(entries) => EntriesKept(I, entries);
    case WApp(op, args, retTy) =>
      ValuesKept(I, args);
      ApplicationKept(I, op, args, retTy);
  }

  lemma {:induction false} ValuesKept<V(!new)>(I: Interpretation<V>, ts: seq<WireTerm>)
    ensures EvalWires(I, ts) == match DecodeAll(ts) case Ok(ts') => Some(Evals(I, ts')) case Err(_) => None
    decreases ts
  {
    if ts != [] {
      DecodeKeepsValue(I, ts[0]);
      ValuesKept(I, ts[1..]);
      if DecodeAll(ts).Ok? { assert DecodeAll(ts).value[1..] == DecodeAll(ts[1..]).value; }
    }
  }

  lemma {:induction false} ValueSet<V(!new)>(I: Interpretation<V>, ts: seq<Term>)
    ensures (set v | v in Evals(I, ts)) == (set x | x in SetOf(ts) :: Eval(I, x))
  {
    var vs := Evals(I, ts);
    forall v | v in vs
      ensures exists x <- SetOf(ts) :: Eval(I, x) == v
    {
      var i :| 0 <= i < |vs| && vs[i] == v;
      assert ts[i] in SetOf(ts);
    }
    forall x | x in SetOf(ts)
      ensures Eval(I, x) in vs
    {
      var i :| 0 <= i < |ts| && ts[i] == x;
      assert vs[i] == Eval(I, x);
    }
  }

  lemma {:induction false} SetKept<V(!new)>(I: Interpretation<V>, elts: seq<WireTerm>, eltsTy: WireType)
    requires EvalWires(I, elts) == match DecodeAll(elts) case Ok(ts) => Some(Evals(I, ts)) case Err(_) => None
    ensures var t := WSet(elts, eltsTy);
            EvalWire(I, t) == match Decode(t) case Ok(t') => Some(Eval(I, t')) case Err(_) => None
  {
    SortKept(eltsTy);
    if DecodeAll(elts).Ok? {
      var ts := DecodeAll(elts).value;
      ValueSet(I, ts);
      assert (set v | v in Evals(I, ts)) == (set x | x in SetOf(ts) :: Eval(I, x));
    }
  }

  lemma {:induction false} ApplicationKept<V(!new)>(
      I: Interpretation<V>, op: WireOp, args: seq<WireTerm>, retTy: WireType)
    requires EvalWires(I, args) == match DecodeAll(args) case Ok(ts) => Some(Evals(I, ts)) case Err(_) => None
    ensures var t := WApp(op, args, retTy);
            EvalWire(I, t) == match Decode(t) case Ok(t') => Some(Eval(I, t')) case Err(_) => None
  {
    SortKept(retTy);
    SymbolKept(op);
  }

  ghost function EvalMap<V(!new)>(I: Interpretation<V>, entries: map<string, Term>): map<string, V> {
    map k | k in entries :: Eval(I, entries[k])
  }

  lemma {:induction false} EvalMapFirst<V(!new)>(I: Interpretation<V>, k: string, t: Term, rest: map<string, Term>)
    ensures EvalMap(I, map[k := t] + rest) == map[k := Eval(I, t)] + EvalMap(I, rest)
  {
  }

  lemma {:induction false} EntriesKept<V(!new)>(I: Interpretation<V>, entries: seq<WireEntry>)
    ensures EvalWireEntries(I, entries).Some? <==> DecodeEntries(entries).Ok?
    ensures DecodeEntries(entries).Ok? ==>
              LastEntry(Keys(entries), EvalWireEntries(I, entries).value) == EvalMap(I, DecodeEntries(entries).value)
    decreases entries
  {
    if entries != [] {
      DecodeKeepsValue(I, entries[0].term);
      EntriesKept(I, entries[1..]);
      if DecodeEntries(entries).Ok? {
        var first, rest := Decode(entries[0].term).value, DecodeEntries(entries[1..]).value;
        assert Keys(entries) == [entries[0].key] + Keys(entries[1..]);
        LastEntryFirst(entries[0].key, Eval(I, first), Keys(entries[1..]), EvalWireEntries(I, entries[1..]).value);
        EvalMapFirst(I, entries[0].key, first, rest);
      }
    }
  }

  /** Encoding keeps the value, whatever the order in which sets and records are listed. */
  lemma EncodeKeepsValue<V(!new)>(I: Interpretation<V>, o: Orders, t: Term)
    requires Listing(o) && TermProofs.WfTerm(t)
    ensures EvalWire(I, Encode(o, t)) == Some(Eval(I, t))
  {
    TermProofs.TermRoundTrip(o, t);
    DecodeKeepsValue(I, Encode(o, t));
  }
}

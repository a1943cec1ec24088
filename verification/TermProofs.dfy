/** The conversion of internal terms to the wire and back is the identity. */
module TermProofs {
  import opened Wrappers
  import opened Numerals
  import opened Terms

  // ----- well-formed internal terms -----

  ghost predicate WfType(t: Type) {
    match t
    case BitvecT(n) => 1 <= n <= 255
    case OptionT(ty) => WfType(ty)
    case SetT(ty) => WfType(ty)
    case RecordT(rty) => forall k :: k in rty ==> WfType(rty[k])
    case _ => true
  }

  ghost predicate WfBitvec(b: Bitvec) {
    1 <= b.width <= 255 && b.val < Pow2(b.width)
  }

  ghost predicate WfCidr(c: Cidr, addrWidth: nat, prefixWidth: nat) {
    && WfBitvec(c.addr) && c.addr.width == addrWidth
    && (c.prefix.Some? ==> WfBitvec(c.prefix.value) && c.prefix.value.width == prefixWidth)
  }

  ghost predicate WfPrim(p: Prim) {
    match p
    case Bits(bv) => WfBitvec(bv)
    case Extension(V4(c)) => WfCidr(c, V4_ADDR, V4_PREFIX)
    case Extension(V6(c)) => WfCidr(c, V6_ADDR, V6_PREFIX)
    case _ => true
  }

  ghost predicate WfPattern(pattern: seq<Pattern>) {
    forall p <- pattern :: p.Char? ==> IsScalar(p.c)
  }

  ghost predicate WfOp(op: Op) {
    match op
    case Uuf(_, arg, out) => WfType(arg) && WfType(out)
    case ZeroExtend(n) => n <= 255
    case StringLike(pattern) => WfPattern(pattern)
    case _ => true
  }

  ghost predicate WfTerm(t: Term) {
    match t
    case TPrim(p) => WfPrim(p)
    case TVar(_, ty) => WfType(ty)
    case TNone(ty) => WfType(ty)
    case TSome(inner) => WfTerm(inner)
    case TSet(elts, eltsTy) => WfType(eltsTy) && forall x :: x in elts ==> WfTerm(x)
    case TRecord(entries) => forall k :: k in entries ==> WfTerm(entries[k])
    case TApp(op, args, retTy) => WfOp(op) && WfType(retTy) && forall x <- args :: WfTerm(x)
  }

  // ----- internal to wire and back -----

  lemma {:induction false} TypeRoundTrip(o: Orders, t: Type)
    requires Listing(o)
    ensures DecodeType(EncodeType(o, t)) == t
    decreases t
  {
    match t
    case OptionT(ty) => TypeRoundTrip(o, ty);
    case SetT(ty) => TypeRoundTrip(o, ty);
    case RecordT(rty) =>
      FieldsRoundTrip(o, o.keys(rty.Keys), t);
      ListedFields(o, rty);
    case _ =>
  }

  lemma ListedFields(o: Orders, rty: map<string, Type>)
    requires Listing(o)
    ensures (map k | k in o.keys(rty.Keys) :: rty[k]) == rty
  {
  }

  lemma {:induction false} FieldsRoundTrip(o: Orders, keys: seq<string>, parent: Type)
    requires Listing(o) && parent.RecordT? && forall k :: k in keys ==> k in parent.rty
    ensures DecodeFields(EncodeFields(o, keys, parent)) == map k | k in keys :: parent.rty[k]
    decreases parent, |keys|
  {
    if keys != [] {
      assert keys[0] in parent.rty;
      TypeRoundTrip(o, parent.rty[keys[0]]);
      FieldsRoundTrip(o, keys[1..], parent);
      var fields := EncodeFields(o, keys, parent);
      assert fields[1..] == EncodeFields(o, keys[1..], parent);
    }
  }

  lemma BitvecRoundTrip(b: Bitvec)
    requires WfBitvec(b)
    ensures DecodeBitvec(EncodeBitvec(b)) == Ok(b)
  {
    NumeralRoundTrip(b.val);
    SmallRemainder(b.val, Pow2(b.width));
  }

  lemma SmallRemainder(n: nat, m: nat)
    requires n < m
    ensures n % m == n
  {
  }

  lemma CidrRoundTrip(c: Cidr, addrWidth: nat, prefixWidth: nat)
    requires WfCidr(c, addrWidth, prefixWidth)
    ensures DecodeCidr(EncodeCidr(c), addrWidth, prefixWidth) == Ok(c)
  {
    BitvecRoundTrip(c.addr);
    if c.prefix.Some? { BitvecRoundTrip(c.prefix.value); }
  }

  lemma PrimRoundTrip(p: Prim)
    requires WfPrim(p)
    ensures DecodePrim(EncodePrim(p)) == Ok(p)
  {
    match p
    case Bits(bv) => BitvecRoundTrip(bv);
    case Extension(V4(c)) => CidrRoundTrip(c, V4_ADDR, V4_PREFIX);
    case Extension(V6(c)) => CidrRoundTrip(c, V6_ADDR, V6_PREFIX);
    case _ =>
  }

  lemma {:induction false} PatternRoundTrip(pattern: seq<Pattern>)
    requires WfPattern(pattern)
    ensures DecodePattern(EncodePattern(pattern)) == Ok(pattern)
  {
    if pattern != [] {
      assert pattern[0] in pattern;
      PatternRoundTrip(pattern[1..]);
      assert EncodePattern(pattern)[1..] == EncodePattern(pattern[1..]);
      assert pattern == [pattern[0]] + pattern[1..];
    }
  }

  lemma PlainTwice<T, P, U, Q>(op: Operator<T, P>)
    requires !HasData(op)
    ensures Plain(Plain<T, P, U, Q>(op)) == op
  {
  }

  lemma OpRoundTrip(o: Orders, op: Op)
    requires Listing(o) && WfOp(op)
    ensures DecodeOp(EncodeOp(o, op)) == Ok(op)
  {
    match op
    case Uuf(_, arg, out) =>
      TypeRoundTrip(o, arg);
      TypeRoundTrip(o, out);
    case StringLike(pattern) => PatternRoundTrip(pattern);
    case _ => if !HasData(op) { PlainTwice<Type, Pattern, WireType, WirePattern>(op); }
  }

  /** From an internal term to the wire and back is the identity, whatever the listing orders. */
  lemma {:induction false} TermRoundTrip(o: Orders, t: Term)
    requires Listing(o) && WfTerm(t)
    ensures Decode(Encode(o, t)) == Ok(t)
    decreases t
  {
    match t
    case TPrim(p) => PrimRoundTrip(p);
    case TVar(_, ty) => TypeRoundTrip(o, ty);
    case TNone(ty) => TypeRoundTrip(o, ty);
    case TSome(inner) => TermRoundTrip(o, inner);
    case TSet(elts, eltsTy) =>
      AllRoundTrip(o, o.terms(elts), t);
      TypeRoundTrip(o, eltsTy);
      ListedSet(o, elts);
    case TRecord(entries) =>
      EntriesRoundTrip(o, o.keys(entries.Keys), t);
      ListedMap(o, entries);
    case TApp(op, args, retTy) =>
      OpRoundTrip(o, op);
      AllRoundTrip(o, args, t);
      TypeRoundTrip(o, retTy);
  }

  lemma ListedSet(o: Orders, elts: set<Term>)
    requires Listing(o)
    ensures SetOf(o.terms(elts)) == elts
  {
  }

  lemma ListedMap(o: Orders, entries: map<string, Term>)
    requires Listing(o)
    ensures (map k | k in o.keys(entries.Keys) :: entries[k]) == entries
  {
  }

  lemma {:induction false} AllRoundTrip(o: Orders, ts: seq<Term>, parent: Term)
    requires Listing(o) && (parent.TSet? || parent.TApp?) && WfTerm(parent)
    requires forall t :: t in ts ==> Inside(t, parent)
    ensures DecodeAll(EncodeAll(o, ts, parent)) == Ok(ts)
    decreases parent, |ts|
  {
    if ts != [] {
      assert Inside(ts[0], parent);
      TermRoundTrip(o, ts[0]);
      AllRoundTrip(o, ts[1..], parent);
      assert EncodeAll(o, ts, parent)[1..] == EncodeAll(o, ts[1..], parent);
      assert ts == [ts[0]] + ts[1..];
    }
  }

  lemma {:induction false} EntriesRoundTrip(o: Orders, keys: seq<string>, parent: Term)
    requires Listing(o) && parent.TRecord? && WfTerm(parent) && forall k :: k in keys ==> k in parent.entries
    ensures DecodeEntries(EncodeEntries(o, keys, parent)) == Ok(map k | k in keys :: parent.entries[k])
    decreases parent, |keys|
  {
    if keys != [] {
      assert keys[0] in parent.entries;
      TermRoundTrip(o, parent.entries[keys[0]]);
      EntriesRoundTrip(o, keys[1..], parent);
      assert EncodeEntries(o, keys, parent)[1..] == EncodeEntries(o, keys[1..], parent);
      assert map[keys[0] := parent.entries[keys[0]]] + (map k | k in keys[1..] :: parent.entries[k])
          == map k | k in keys :: parent.entries[k];
    }
  }

  // ----- wire to internal and back -----

  /** The widths of the wire format fit its machine types. */
  ghost predicate InRangeType(t: WireType) {
    match t
    case PrimType(BitvecPrim(n)) => 1 <= n <= 255
    case OptionType(ty) => InRangeType(ty)
    case SetType(ty) => InRangeType(ty)
    case RecordType(rty) => forall f <- rty :: InRangeType(f.ty)
    case _ => true
  }

  ghost predicate InRangePrim(p: WirePrim) {
    match p
    case WireBits(bv) => bv.width <= 255
    case _ => true
  }

  ghost predicate InRangeOp(op: WireOp) {
    match op
    case Uuf(_, arg, out) => InRangeType(arg) && InRangeType(out)
    case ZeroExtend(n) => n <= 255
    case _ => true
  }

  ghost predicate InRange(t: WireTerm) {
    match t
    case WPrim(p) => InRangePrim(p)
    case WVar(_, ty) => InRangeType(ty)
    case WNone(ty) => InRangeType(ty)
    case WSome(inner) => InRange(inner)
    case WSet(elts, eltsTy) => InRangeType(eltsTy) && forall x <- elts :: InRange(x)
    case WRecord(entries) => forall e <- entries :: InRange(e.term)
    case WApp(op, args, retTy) => InRangeOp(op) && InRangeType(retTy) && forall x <- args :: InRange(x)
  }

  lemma {:induction false} DecodedTypeWf(t: WireType)
    requires InRangeType(t)
    ensures WfType(DecodeType(t))
    decreases t
  {
    match t
    case OptionType(ty) => DecodedTypeWf(ty);
    case SetType(ty) => DecodedTypeWf(ty);
    case RecordType(rty) => DecodedFieldsWf(rty);
    case _ =>
  }

  lemma {:induction false} DecodedFieldsWf(rty: seq<WireField>)
    requires forall f <- rty :: InRangeType(f.ty)
    ensures forall k :: k in DecodeFields(rty) ==> WfType(DecodeFields(rty)[k])
    decreases rty
  {
    if rty != [] {
      assert rty[0] in rty;
      DecodedTypeWf(rty[0].ty);
      DecodedFieldsWf(rty[1..]);
    }
  }

  lemma {:induction false} DecodedPatternWf(pattern: seq<WirePattern>)
    ensures DecodePattern(pattern).Ok? ==> WfPattern(DecodePattern(pattern).value)
  {
    if pattern != [] { DecodedPatternWf(pattern[1..]); }
  }

  lemma DecodedPrimWf(p: WirePrim)
    requires InRangePrim(p)
    ensures DecodePrim(p).Ok? ==> WfPrim(DecodePrim(p).value)
  {
    match p
    case WireBits(bv) => DecodedBitvecWf(bv);
    case WireExtension(WireV4(c)) => DecodedCidrWf(c, V4_ADDR, V4_PREFIX);
    case WireExtension(WireV6(c)) => DecodedCidrWf(c, V6_ADDR, V6_PREFIX);
    case _ =>
  }

  lemma DecodedBitvecWf(b: WireBitvec)
    requires b.width <= 255
    ensures DecodeBitvec(b).Ok? ==> WfBitvec(DecodeBitvec(b).value)
  {
  }

  lemma DecodedCidrWf(c: WireCidr, addrWidth: nat, prefixWidth: nat)
    requires addrWidth <= 255 && prefixWidth <= 255
    ensures DecodeCidr(c, addrWidth, prefixWidth).Ok?
            ==> WfCidr(DecodeCidr(c, addrWidth, prefixWidth).value, addrWidth, prefixWidth)
  {
  }

  lemma DecodedOpWf(op: WireOp)
    requires InRangeOp(op)
    ensures DecodeOp(op).Ok? ==> WfOp(DecodeOp(op).value)
  {
    match op
    case Uuf(_, arg, out) =>
      DecodedTypeWf(arg);
      DecodedTypeWf(out);
    case StringLike(pattern) => DecodedPatternWf(pattern);
    case _ =>
  }

  /** What decodes from in-range wire terms is well formed, so the round trip applies to it. */
  lemma {:induction false} DecodedWf(t: WireTerm)
    requires InRange(t) && Decode(t).Ok?
    ensures WfTerm(Decode(t).value)
    decreases t
  {
    match t
    case WPrim(p) => DecodedPrimWf(p);
    case WVar(_, ty) => DecodedTypeWf(ty);
    case WNone(ty) => DecodedTypeWf(ty);
    case WSome(inner) => DecodedWf(inner);
    case WSet(elts, eltsTy) =>
      DecodedTypeWf(eltsTy);
      DecodedAllWf(elts);
    case WRecord(entries) => DecodedEntriesWf(entries);
    case WApp(op, args, retTy) =>
      DecodedOpWf(op);
      DecodedTypeWf(retTy);
      DecodedAllWf(args);
  }

  lemma {:induction false} DecodedAllWf(ts: seq<WireTerm>)
    requires (forall t <- ts :: InRange(t)) && DecodeAll(ts).Ok?
    ensures forall x <- DecodeAll(ts).value :: WfTerm(x)
    decreases ts
  {
    if ts != [] {
      assert ts[0] in ts;
      DecodedWf(ts[0]);
      DecodedAllWf(ts[1..]);
    }
  }

  lemma {:induction false} DecodedEntriesWf(entries: seq<WireEntry>)
    requires (forall e <- entries :: InRange(e.term)) && DecodeEntries(entries).Ok?
    ensures forall k :: k in DecodeEntries(entries).value ==> WfTerm(DecodeEntries(entries).value[k])
    decreases entries
  {
    if entries != [] {
      assert entries[0] in entries;
      DecodedWf(entries[0].term);
      DecodedEntriesWf(entries[1..]);
    }
  }
}

/** Symbolic terms as wire messages for the Lean side, and a reader that recovers them.

    A message is a tagged union that may also be unset, and an enumeration travels as its number.
    Operators without data, and primitive types without data, go through an encoder of their own that
    demands to be given no other. */
module TermMessages {
  import opened Wrappers
  import opened Terms
  import TermProofs

  datatype PrimTypeMessage =
    | PrimNumber(p: nat)
    | BitvecWidth(n: nat)
    | EntityName(ety: string)
    | ExtNumber(x: nat)
    | PrimUnset

  datatype TypeMessage =
    | PrimMessage(prim: PrimTypeMessage)
    | OptionMessage(ty: TypeMessage)
    | SetMessage(ty: TypeMessage)
    | RecordMessage(fields: seq<FieldMessage>)
    | TypeUnset

  datatype FieldMessage = FieldMessage(attr: string, ty: TypeMessage)

  datatype ElemMessage = StarMessage(b: bool) | CharMessage(c: nat) | ElemUnset

  datatype OpMessage =
    | BaseOpNumber(n: nat)
    | UufMessage(id: string, arg: TypeMessage, out: TypeMessage)
    | ZeroExtendMessage(width: nat)
    | RecordGetMessage(attr: string)
    | LikeMessage(pattern: seq<ElemMessage>)
    | ExtOpNumber(x: nat)
    | OpUnset

  datatype TermMessage =
    | TermPrim(p: WirePrim)
    | TermVar(id: string, ty: TypeMessage)
    | TermNone(ty: TypeMessage)
    | TermSome(t: TermMessage)
    | TermSet(elts: seq<TermMessage>, eltTy: TypeMessage)
    | TermRecord(fields: seq<TermFieldMessage>)
    | TermApp(op: OpMessage, args: seq<TermMessage>, retTy: TypeMessage)
    | TermUnset

  datatype TermFieldMessage = TermFieldMessage(attr: string, term: TermMessage)

  // ----- enumerations as numbers -----

  const BASE_OPS: seq<WireOp> := [
    Not, And, Or, Eq, Ite,
    Bvneg, Bvadd, Bvsub, Bvmul, Bvsdiv, Bvudiv, Bvsrem, Bvsmod, Bvurem, Bvshl, Bvlshr,
    Bvslt, Bvsle, Bvult, Bvule, Bvnego, Bvsaddo, Bvssubo, Bvsmulo,
    SetMember, SetSubset, SetInter, OptionGet]

  const EXT_OPS: seq<ExtOp> := [
    DecimalVal, IpaddrIsV4, IpaddrAddrV4, IpaddrPrefixV4, IpaddrAddrV6, IpaddrPrefixV6,
    DatetimeVal, DatetimeOfBitVec, DurationVal, DurationOfBitVec]

  const EXT_TYPES: seq<ExtType> := [IpAddrType, DecimalType, DatetimeType, DurationType]

  const PRIMS: seq<WirePrimType> := [BoolPrim, StringPrim]

  function Entry<T>(table: seq<T>, n: nat): Option<T> {
    if n < |table| then Some(table[n]) else None
  }

  /** `BaseOp::new`; the other operators are unreachable. */
  function BaseOpCode(op: WireOp): (n: nat)
    requires !HasData(op)
    ensures Entry(BASE_OPS, n) == Some(op)
  {
    match op
    case Not => 0 case And => 1 case Or => 2 case Eq => 3
    case Ite => 4 case Bvneg => 5 case Bvadd => 6 case Bvsub => 7
    case Bvmul => 8 case Bvsdiv => 9 case Bvudiv => 10 case Bvsrem => 11
    case Bvsmod => 12 case Bvurem => 13 case Bvshl => 14 case Bvlshr => 15
    case Bvslt => 16 case Bvsle => 17 case Bvult => 18 case Bvule => 19
    case Bvnego => 20 case Bvsaddo => 21 case Bvssubo => 22 case Bvsmulo => 23
    case SetMember => 24 case SetSubset => 25 case SetInter => 26 case OptionGet => 27
  }

  function ExtOpCode(xop: ExtOp): (n: nat)
    ensures Entry(EXT_OPS, n) == Some(xop)
  {
    match xop
    case DecimalVal => 0 case IpaddrIsV4 => 1 case IpaddrAddrV4 => 2 case IpaddrPrefixV4 => 3
    case IpaddrAddrV6 => 4 case IpaddrPrefixV6 => 5 case DatetimeVal => 6 case DatetimeOfBitVec => 7
    case DurationVal => 8 case DurationOfBitVec => 9
  }

  function ExtTypeCode(xty: ExtType): (n: nat)
    ensures Entry(EXT_TYPES, n) == Some(xty)
  {
    match xty
    case IpAddrType => 0 case DecimalType => 1 case DatetimeType => 2 case DurationType => 3
  }

  /** `Prim::new`; the other primitive types are unreachable. */
  function PrimCode(pty: WirePrimType): (n: nat)
    requires pty.BoolPrim? || pty.StringPrim?
    ensures Entry(PRIMS, n) == Some(pty)
  {
    if pty.BoolPrim? then 0 else 1
  }

  // ----- terms to messages -----

  function PrimTypeToMessage(pty: WirePrimType): PrimTypeMessage {
    match pty
    case BitvecPrim(n) => BitvecWidth(n)
    case EntityPrim(ety) => EntityName(ety)
    case ExtPrim(xty) => ExtNumber(ExtTypeCode(xty))
    case _ => PrimNumber(PrimCode(pty))
  }

  function TypeToMessage(t: WireType): TypeMessage
    decreases t
  {
    match t
    case PrimType(pty) => PrimMessage(PrimTypeToMessage(pty))
    case OptionType(ty) => OptionMessage(TypeToMessage(ty))
    case SetType(ty) => SetMessage(TypeToMessage(ty))
    case RecordType(rty) => RecordMessage(FieldsToMessage(rty))
  }

  function FieldsToMessage(rty: seq<WireField>): seq<FieldMessage>
    decreases rty
  {
    if rty == [] then [] else [FieldMessage(rty[0].key, TypeToMessage(rty[0].ty))] + FieldsToMessage(rty[1..])
  }

  function PatternToMessage(pattern: seq<WirePattern>): seq<ElemMessage> {
    if pattern == [] then []
    else [if pattern[0].Star? then StarMessage(true) else CharMessage(pattern[0].c)] + PatternToMessage(pattern[1..])
  }

  function OpToMessage(op: WireOp): OpMessage {
    match op
    case Uuf(id, arg, out) => UufMessage(id, TypeToMessage(arg), TypeToMessage(out))
    case ZeroExtend(n) => ZeroExtendMessage(n)
    case RecordGet(attr) => RecordGetMessage(attr)
    case StringLike(pattern) => LikeMessage(PatternToMessage(pattern))
    case ExtensionOp(xop) => ExtOpNumber(ExtOpCode(xop))
    case _ => BaseOpNumber(BaseOpCode(op))
  }

  /** `proto::Term::new` */
  function TermToMessage(t: WireTerm): TermMessage
    decreases t
  {
    match t
    case WPrim(p) => TermPrim(p)
    case WVar(id, ty) => TermVar(id, TypeToMessage(ty))
    case WNone(ty) => TermNone(TypeToMessage(ty))
    case WSome(inner) => TermSome(TermToMessage(inner))
    case WSet(elts, eltsTy) => TermSet(TermsToMessage(elts), TypeToMessage(eltsTy))
    case WRecord(entries) => TermRecord(EntriesToMessage(entries))
    case WApp(op, args, retTy) => TermApp(OpToMessage(op), TermsToMessage(args), TypeToMessage(retTy))
  }

  function TermsToMessage(ts: seq<WireTerm>): seq<TermMessage>
    decreases ts
  {
    if ts == [] then [] else [TermToMessage(ts[0])] + TermsToMessage(ts[1..])
  }

  function EntriesToMessage(entries: seq<WireEntry>): seq<TermFieldMessage>
    decreases entries
  {
    if entries == [] then []
    else [TermFieldMessage(entries[0].key, TermToMessage(entries[0].term))] + EntriesToMessage(entries[1..])
  }

  // ----- messages to terms -----

  function PrimTypeFromMessage(m: PrimTypeMessage): Option<WirePrimType> {
    match m
    case BitvecWidth(n) => Some(BitvecPrim(n))
    case EntityName(ety) => Some(EntityPrim(ety))
    case ExtNumber(x) =>
      var xty :- Entry(EXT_TYPES, x);
      Some(ExtPrim(xty))
    case PrimNumber(p) => Entry(PRIMS, p)
    case PrimUnset => None
  }

  function TypeFromMessage(m: TypeMessage): Option<WireType>
    decreases m
  {
    match m
    case PrimMessage(prim) =>
      var pty :- PrimTypeFromMessage(prim);
      Some(PrimType(pty))
    case OptionMessage(ty) =>
      var t :- TypeFromMessage(ty);
      Some(OptionType(t))
    case SetMessage(ty) =>
      var t :- TypeFromMessage(ty);
      Some(SetType(t))
    case RecordMessage(fields) =>
      var rty :- FieldsFromMessage(fields);
      Some(RecordType(rty))
    case TypeUnset => None
  }

  function FieldsFromMessage(fields: seq<FieldMessage>): Option<seq<WireField>>
    decreases fields
  {
    if fields == [] then Some([])
    else
      var t :- TypeFromMessage(fields[0].ty);
      var rest :- FieldsFromMessage(fields[1..]);
      Some([WireField(fields[0].attr, t)] + rest)
  }

  function PatternFromMessage(pattern: seq<ElemMessage>): Option<seq<WirePattern>> {
    if pattern == [] then Some([])
    else if pattern[0].ElemUnset? then None
    else
      var rest :- PatternFromMessage(pattern[1..]);
      Some([if pattern[0].StarMessage? then Star else JustChar(pattern[0].c)] + rest)
  }

  function OpFromMessage(m: OpMessage): Option<WireOp> {
    match m
    case BaseOpNumber(n) => Entry(BASE_OPS, n)
    case UufMessage(id, arg, out) =>
      var a :- TypeFromMessage(arg);
      var o :- TypeFromMessage(out);
      Some(Uuf(id, a, o))
    case ZeroExtendMessage(n) => Some(ZeroExtend(n))
    case RecordGetMessage(attr) => Some(RecordGet(attr))
    case LikeMessage(pattern) =>
      var elems :- PatternFromMessage(pattern);
      Some(StringLike(elems))
    case ExtOpNumber(x) =>
      var xop :- Entry(EXT_OPS, x);
      Some(ExtensionOp(xop))
    case OpUnset => None
  }

  function TermFromMessage(m: TermMessage): Option<WireTerm>
    decreases m
  {
    match m
    case TermPrim(p) => Some(WPrim(p))
    case TermVar(id, ty) =>
      var t :- TypeFromMessage(ty);
      Some(WVar(id, t))
    case TermNone(ty) =>
      var t :- TypeFromMessage(ty);
      Some(WNone(t))
    case TermSome(t) =>
      var inner :- TermFromMessage(t);
      Some(WSome(inner))
    case TermSet(elts, eltTy) =>
      var ts :- TermsFromMessage(elts);
      var ty :- TypeFromMessage(eltTy);
      Some(WSet(ts, ty))
    case TermRecord(fields) =>
      var entries :- EntriesFromMessage(fields);
      Some(WRecord(entries))
    case TermApp(op, args, retTy) =>
      var o :- OpFromMessage(op);
      var ts :- TermsFromMessage(args);
      var ty :- TypeFromMessage(retTy);
      Some(WApp(o, ts, ty))
    case TermUnset => None
  }

  function TermsFromMessage(ms: seq<TermMessage>): Option<seq<WireTerm>>
    decreases ms
  {
    if ms == [] then Some([])
    else
      var first :- TermFromMessage(ms[0]);
      var rest :- TermsFromMessage(ms[1..]);
      Some([first] + rest)
  }

  function EntriesFromMessage(fields: seq<TermFieldMessage>): Option<seq<WireEntry>>
    decreases fields
  {
    if fields == [] then Some([])
    else
      var first :- TermFromMessage(fields[0].term);
      var rest :- EntriesFromMessage(fields[1..]);
      Some([WireEntry(fields[0].attr, first)] + rest)
  }

  // ----- nothing is lost -----

  lemma PrimTypeRecovered(pty: WirePrimType)
    ensures PrimTypeFromMessage(PrimTypeToMessage(pty)) == Some(pty)
  {
  }

  lemma {:induction false} TypeRecovered(t: WireType)
    ensures TypeFromMessage(TypeToMessage(t)) == Some(t)
    decreases t
  {
    match t
    case PrimType(pty) => PrimTypeRecovered(pty);
    case OptionType(ty) => TypeRecovered(ty);
    case SetType(ty) => TypeRecovered(ty);
    case RecordType(rty) => FieldsRecovered(rty);
  }

  lemma {:induction false} FieldsRecovered(rty: seq<WireField>)
    ensures FieldsFromMessage(FieldsToMessage(rty)) == Some(rty)
    decreases rty
  {
    if rty != [] {
      TypeRecovered(rty[0].ty);
      FieldsRecovered(rty[1..]);
      assert FieldsToMessage(rty)[1..] == FieldsToMessage(rty[1..]);
      assert rty == [rty[0]] + rty[1..];
    }
  }

  lemma {:induction false} PatternRecovered(pattern: seq<WirePattern>)
    ensures PatternFromMessage(PatternToMessage(pattern)) == Some(pattern)
  {
    if pattern != [] {
      PatternRecovered(pattern[1..]);
      assert PatternToMessage(pattern)[1..] == PatternToMessage(pattern[1..]);
      assert pattern == [pattern[0]] + pattern[1..];
    }
  }

  lemma OpRecovered(op: WireOp)
    ensures OpFromMessage(OpToMessage(op)) == Some(op)
  {
    match op
    case Uuf(_, arg, out) =>
      TypeRecovered(arg);
      TypeRecovered(out);
    case StringLike(pattern) => PatternRecovered(pattern);
    case _ =>
  }

  /** The reader recovers every term from its message. */
  lemma {:induction false} TermRecovered(t: WireTerm)
    ensures TermFromMessage(TermToMessage(t)) == Some(t)
    decreases t
  {
    match t
    case WPrim(_) =>
    case WVar(_, ty) => TypeRecovered(ty);
    case WNone(ty) => TypeRecovered(ty);
    case WSome(inner) => TermRecovered(inner);
    case WSet(elts, eltsTy) =>
      TermsRecovered(elts);
      TypeRecovered(eltsTy);
    case WRecord(entries) => EntriesRecovered(entries);
    case WApp(op, args, retTy) =>
      OpRecovered(op);
      TermsRecovered(args);
      TypeRecovered(retTy);
  }

  lemma {:induction false} TermsRecovered(ts: seq<WireTerm>)
    ensures TermsFromMessage(TermsToMessage(ts)) == Some(ts)
    decreases ts
  {
    if ts != [] {
      TermRecovered(ts[0]);
      TermsRecovered(ts[1..]);
      assert TermsToMessage(ts)[1..] == TermsToMessage(ts[1..]);
      assert ts == [ts[0]] + ts[1..];
    }
  }

  lemma {:induction false} EntriesRecovered(entries: seq<WireEntry>)
    ensures EntriesFromMessage(EntriesToMessage(entries)) == Some(entries)
    decreases entries
  {
    if entries != [] {
      TermRecovered(entries[0].term);
      EntriesRecovered(entries[1..]);
      assert EntriesToMessage(entries)[1..] == EntriesToMessage(entries[1..]);
      assert entries == [entries[0]] + entries[1..];
    }
  }

  /** Messages are equal exactly when the terms are. */
  lemma TermMessageInjective(t: WireTerm, t': WireTerm)
    ensures TermToMessage(t) == TermToMessage(t') <==> t == t'
  {
    TermRecovered(t);
    TermRecovered(t');
  }

  /** An internal term survives the whole way out and back: to the wire format, into a message, out of
      it, and into an internal term. */
  lemma InternalTermSurvives(o: Orders, t: Term)
    requires Listing(o) && TermProofs.WfTerm(t)
    ensures var received := TermFromMessage(TermToMessage(Encode(o, t)));
            received.Some? && Decode(received.value) == Ok(t)
  {
    TermRecovered(Encode(o, t));
    TermProofs.TermRoundTrip(o, t);
  }
}

/** What messages mean: an evaluator by the numbers and names of the message schema, and that a term and
    its message have the same value. */
module TermMessageMeaning {
  import opened Wrappers
  import opened Terms
  import opened TermMessages
  import opened TermMeaning
  import TermProofs

  // ----- the enumerations of the message schema, in the order of their numbers -----

  const BASE_OP_NAMES: seq<string> := [
    "Not", "And", "Or", "Eq", "Ite",
    "Bvneg", "Bvadd", "Bvsub", "Bvmul", "Bvsdiv", "Bvudiv", "Bvsrem", "Bvsmod", "Bvurem", "Bvshl", "Bvlshr",
    "Bvslt", "Bvsle", "Bvult", "Bvule", "Bvnego", "Bvsaddo", "Bvssubo", "Bvsmulo",
    "SetMember", "SetSubset", "SetInter", "OptionGet"]

  const EXT_OP_NAMES: seq<string> := [
    "DecimalVal", "IPaddrIsV4", "IPaddrAddrV4", "IPaddrPrefixV4", "IPaddrAddrV6", "IPaddrPrefixV6",
    "DatetimeVal", "DatetimeOfBitVec", "DurationVal", "DurationOfBitVec"]

  const EXT_TYPE_NAMES: seq<string> := ["IpAddrType", "DecimalType", "DatetimeType", "DurationType"]

  const PRIM_SORTS: seq<Sort> := [BoolSort, TextSort]

  // ----- evaluating messages -----

  function PrimMessageSort(m: PrimTypeMessage): Option<Sort> {
    match m
    case PrimNumber(p) => Entry(PRIM_SORTS, p)
    case BitvecWidth(n) => Some(BitsSort(n))
    case EntityName(ety) => Some(UidSort(ety))
    case ExtNumber(x) =>
      var name :- Entry(EXT_TYPE_NAMES, x);
      Some(ExtSort(name))
    case PrimUnset => None
  }

  function MessageSort(m: TypeMessage): Option<Sort>
    decreases m
  {
    match m
    case PrimMessage(prim) => PrimMessageSort(prim)
    case OptionMessage(ty) =>
      var inner :- MessageSort(ty);
      Some(OptionSort(inner))
    case SetMessage(ty) =>
      var inner :- MessageSort(ty);
      Some(SetSort(inner))
    case RecordMessage(fields) =>
      var sorts :- MessageSorts(fields);
      Some(RecordSort(LastEntry(MessageAttrs(fields), sorts)))
    case TypeUnset => None
  }

  function MessageSorts(fields: seq<FieldMessage>): (r: Option<seq<Sort>>)
    ensures r.Some? ==> |r.value| == |fields|
    decreases fields
  {
    if fields == [] then Some([])
    else
      var first :- MessageSort(fields[0].ty);
      var rest :- MessageSorts(fields[1..]);
      Some([first] + rest)
  }

  function MessageAttrs(fields: seq<FieldMessage>): seq<string> {
    seq(|fields|, i requires 0 <= i < |fields| => fields[i].attr)
  }

  function MessageElems(pattern: seq<ElemMessage>): seq<Option<nat>> {
    seq(|pattern|, i requires 0 <= i < |pattern| => if pattern[i].CharMessage? then Some(pattern[i].c) else None)
  }

  /** Every element is set, and every character is a scalar value. */
  predicate MessageReadable(pattern: seq<ElemMessage>) {
    forall p <- pattern :: !p.ElemUnset? && (p.CharMessage? ==> IsScalar(p.c))
  }

  function MessageSymbol(m: OpMessage): Option<Symbol> {
    match m
    case BaseOpNumber(n) =>
      var name :- Entry(BASE_OP_NAMES, n);
      Some(Named(name))
    case UufMessage(id, arg, out) =>
      var a :- MessageSort(arg);
      var o :- MessageSort(out);
      Some(Function(id, a, o))
    case ZeroExtendMessage(n) => Some(Extend(n))
    case RecordGetMessage(attr) => Some(Attribute(attr))
    case LikeMessage(pattern) => if MessageReadable(pattern) then Some(Like(MessageElems(pattern))) else None
    case ExtOpNumber(x) =>
      var name :- Entry(EXT_OP_NAMES, x);
      Some(ExtNamed(name))
    case OpUnset => None
  }

  function EntryAttrs(fields: seq<TermFieldMessage>): seq<string> {
    seq(|fields|, i requires 0 <= i < |fields| => fields[i].attr)
  }

  ghost function EvalMessage<V(!new)>(I: Interpretation<V>, m: TermMessage): Option<V>
    decreases m
  {
    match m
    case TermPrim(p) =>
      var l :- WireLiteral(p);
      Some(I.literal(l))
    case TermVar(id, ty) =>
      var sort :- MessageSort(ty);
      Some(I.variable(id, sort))
    case TermNone(ty) =>
      var sort :- MessageSort(ty);
      Some(I.none(sort))
    case TermSome(t) =>
      var v :- EvalMessage(I, t);
      Some(I.some(v))
    case TermSet(elts, eltTy) =>
      var vs :- EvalMessages(I, elts);
      var sort :- MessageSort(eltTy);
      Some(I.collect((set v | v in vs), sort))
    case TermRecord(fields) =>
      var vs :- EvalEntryMessages(I, fields);
      Some(I.record(LastEntry(EntryAttrs(fields), vs)))
    case TermApp(op, args, retTy) =>
      var symbol :- MessageSymbol(op);
      var vs :- EvalMessages(I, args);
      var sort :- MessageSort(retTy);
      Some(I.apply(symbol, vs, sort))
    case TermUnset => None
  }

  ghost function EvalMessages<V(!new)>(I: Interpretation<V>, ms: seq<TermMessage>): (r: Option<seq<V>>)
    ensures r.Some? ==> |r.value| == |ms|
    decreases ms
  {
    if ms == [] then Some([])
    else
      var v :- EvalMessage(I, ms[0]);
      var vs :- EvalMessages(I, ms[1..]);
      Some([v] + vs)
  }

  ghost function EvalEntryMessages<V(!new)>(I: Interpretation<V>, fields: seq<TermFieldMessage>)
    : (r: Option<seq<V>>)
    ensures r.Some? ==> |r.value| == |fields|
    decreases fields
  {
    if fields == [] then Some([])
    else
      var v :- EvalMessage(I, fields[0].term);
      var vs :- EvalEntryMessages(I, fields[1..]);
      Some([v] + vs)
  }

  // ----- a term and its message -----

  lemma PrimSortSent(pty: WirePrimType)
    ensures PrimMessageSort(PrimTypeToMessage(pty)) == Some(WireSort(PrimType(pty)))
  {
  }

  lemma {:induction false} SortSent(t: WireType)
    ensures MessageSort(TypeToMessage(t)) == Some(WireSort(t))
    decreases t
  {
    match t
    case PrimType(pty) => PrimSortSent(pty);
    case OptionType(ty) => SortSent(ty);
    case SetType(ty) => SortSent(ty);
    case RecordType(rty) => SortsSent(rty);
  }

  lemma {:induction false} SortsSent(rty: seq<WireField>)
    ensures MessageSorts(FieldsToMessage(rty)) == Some(WireSorts(rty))
    ensures MessageAttrs(FieldsToMessage(rty)) == FieldKeys(rty)
    decreases rty
  {
    if rty != [] {
      SortSent(rty[0].ty);
      SortsSent(rty[1..]);
      var fields := FieldsToMessage(rty);
      assert fields[1..] == FieldsToMessage(rty[1..]);
      assert MessageAttrs(fields) == [rty[0].key] + MessageAttrs(fields[1..]);
      assert FieldKeys(rty) == [rty[0].key] + FieldKeys(rty[1..]);
    }
  }

  lemma {:induction false} PatternSent(pattern: seq<WirePattern>)
    ensures MessageReadable(PatternToMessage(pattern)) <==> Readable(pattern)
    ensures MessageElems(PatternToMessage(pattern)) == WireElems(pattern)
  {
    if pattern != [] {
      PatternSent(pattern[1..]);
      var sent := PatternToMessage(pattern);
      assert sent == [sent[0]] + PatternToMessage(pattern[1..]) && pattern == [pattern[0]] + pattern[1..];
      assert MessageReadable(sent) <==> MessageReadable([sent[0]]) && MessageReadable(PatternToMessage(pattern[1..]));
      assert Readable(pattern) <==> Readable([pattern[0]]) && Readable(pattern[1..]);
      assert MessageElems(sent)[1..] == MessageElems(PatternToMessage(pattern[1..]));
      assert WireElems(pattern)[1..] == WireElems(pattern[1..]);
      assert MessageElems(sent)[0] == WireElems(pattern)[0];
    }
  }

  lemma BaseNameSent(op: WireOp)
    requires !HasData(op)
    ensures Entry(BASE_OP_NAMES, BaseOpCode(op)) == Some(BaseName(op))
  {
  }

  lemma FunctionSent(id: string, arg: WireType, out: WireType)
    ensures MessageSymbol(OpToMessage(Uuf(id, arg, out))) == WireSymbol(Uuf(id, arg, out))
  {
    SortSent(arg);
    SortSent(out);
  }

  lemma LikeSent(pattern: seq<WirePattern>)
    ensures MessageSymbol(OpToMessage(StringLike(pattern))) == WireSymbol(StringLike(pattern))
  {
    PatternSent(pattern);
  }

  lemma DataSent(op: WireOp)
    requires HasData(op)
    ensures MessageSymbol(OpToMessage(op)) == WireSymbol(op)
  {
    match op
    case Uuf(id, arg, out) => FunctionSent(id, arg, out);
    case StringLike(pattern) => LikeSent(pattern);
    case _ =>
  }

  /** Every operator is sent as the number of its name, with its data. */
  lemma SymbolSent(op: WireOp)
    ensures MessageSymbol(OpToMessage(op)) == WireSymbol(op)
  {
    if HasData(op) { DataSent(op); } else { BaseNameSent(op); }
  }

  /** For every interpretation, a message has the value of the term that was sent. */
  lemma {:induction false} MessageKeepsValue<V(!new)>(I: Interpretation<V>, t: WireTerm)
    ensures EvalMessage(I, TermToMessage(t)) == EvalWire(I, t)
    decreases t
  {
    match t
    case WPrim(_) =>
    case WVar(_, ty) => SortSent(ty);
    case WNone(ty) => SortSent(ty);
    case WSome(inner) => MessageKeepsValue(I, inner);
    case WSet(elts, eltsTy) =>
      ValuesSent(I, elts);
      SortSent(eltsTy);
    case WRecord(entries) => EntriesSent(I, entries);
    case WApp(op, args, retTy) =>
      SymbolSent(op);
      ValuesSent(I, args);
      SortSent(retTy);
  }

  lemma {:induction false} ValuesSent<V(!new)>(I: Interpretation<V>, ts: seq<WireTerm>)
    ensures EvalMessages(I, TermsToMessage(ts)) == EvalWires(I, ts)
    decreases ts
  {
    if ts != [] {
      MessageKeepsValue(I, ts[0]);
      ValuesSent(I, ts[1..]);
      assert TermsToMessage(ts)[1..] == TermsToMessage(ts[1..]);
    }
  }

  lemma {:induction false} EntriesSent<V(!new)>(I: Interpretation<V>, entries: seq<WireEntry>)
    ensures EvalEntryMessages(I, EntriesToMessage(entries)) == EvalWireEntries(I, entries)
    ensures EntryAttrs(EntriesToMessage(entries)) == Keys(entries)
    decreases entries
  {
    if entries != [] {
      MessageKeepsValue(I, entries[0].term);
      EntriesSent(I, entries[1..]);
      var fields := EntriesToMessage(entries);
      assert fields[1..] == EntriesToMessage(entries[1..]);
      assert EntryAttrs(fields) == [entries[0].key] + EntryAttrs(fields[1..]);
      assert Keys(entries) == [entries[0].key] + Keys(entries[1..]);
    }
  }

  /** An internal term, sent as a message, has its value there. */
  lemma SentTermKeepsValue<V(!new)>(I: Interpretation<V>, o: Orders, t: Term)
    requires Listing(o) && TermProofs.WfTerm(t)
    ensures EvalMessage(I, TermToMessage(Encode(o, t))) == Some(Eval(I, t))
  {
    EncodeKeepsValue(I, o, t);
    MessageKeepsValue(I, Encode(o, t));
  }
}

/** Symbolic terms: the wire format, which is plain lists, and the internal one, whose sets and records
    are ordered collections, with the conversions both ways. */
module Terms {
  import opened Wrappers
  import opened Numerals

  datatype ConversionError = CharConversion | ParseBigInt | ZeroWidth | UnexpectedWidth

  datatype ExtType = IpAddrType | DecimalType | DatetimeType | DurationType

  datatype ExtOp =
    | DecimalVal | IpaddrIsV4 | IpaddrAddrV4 | IpaddrPrefixV4 | IpaddrAddrV6 | IpaddrPrefixV6
    | DatetimeVal | DatetimeOfBitVec | DurationVal | DurationOfBitVec

  /** Operators over types `T` and pattern elements `P`, in the order of the source */
  datatype Operator<T, P> =
    | Not | And | Or | Eq | Ite
    | Uuf(id: string, arg: T, out: T)
    | Bvneg | Bvadd | Bvsub | Bvmul | Bvsdiv | Bvudiv | Bvsrem | Bvsmod | Bvurem | Bvshl | Bvlshr
    | Bvslt | Bvsle | Bvult | Bvule | Bvnego | Bvsaddo | Bvssubo | Bvsmulo
    | ZeroExtend(n: nat)
    | SetMember | SetSubset | SetInter | OptionGet
    | RecordGet(attr: string)
    | StringLike(pattern: seq<P>)
    | ExtensionOp(xop: ExtOp)

  predicate HasData<T, P>(op: Operator<T, P>) {
    op.Uuf? || op.ZeroExtend? || op.RecordGet? || op.StringLike? || op.ExtensionOp?
  }

  /** The same operator over other types and pattern elements */
  function Plain<T, P, U, Q>(op: Operator<T, P>): (r: Operator<U, Q>)
    requires !HasData(op)
    ensures !HasData(r)
  {
    match op
    case Not => Not case And => And case Or => Or case Eq => Eq case Ite => Ite
    case Bvneg => Bvneg case Bvadd => Bvadd case Bvsub => Bvsub case Bvmul => Bvmul case Bvsdiv => Bvsdiv
    case Bvudiv => Bvudiv case Bvsrem => Bvsrem case Bvsmod => Bvsmod case Bvurem => Bvurem
    case Bvshl => Bvshl case Bvlshr => Bvlshr case Bvslt => Bvslt case Bvsle => Bvsle
    case Bvult => Bvult case Bvule => Bvule case Bvnego => Bvnego case Bvsaddo => Bvsaddo
    case Bvssubo => Bvssubo case Bvsmulo => Bvsmulo case SetMember => SetMember
    case SetSubset => SetSubset case SetInter => SetInter case OptionGet => OptionGet
  }

  // ----- the wire format -----

  /** The width is a byte; the value is decimal text. */
  datatype WireBitvec = WireBitvec(width: nat, val: string)

  datatype WireCidr = WireCidr(addr: WireBitvec, prefix: Option<WireBitvec>)

  datatype WireExt =
    | WireDecimal(d: int)
    | WireV4(v4: WireCidr)
    | WireV6(v6: WireCidr)
    | WireDatetime(dt: int)
    | WireDuration(dur: int)

  datatype WirePrim =
    | WireBool(b: bool)
    | WireBits(bv: WireBitvec)
    | WireString(s: string)
    | WireEntity(ty: string, eid: string)
    | WireExtension(ext: WireExt)

  datatype WirePrimType =
    | BoolPrim
    | BitvecPrim(n: nat)
    | StringPrim
    | EntityPrim(ety: string)
    | ExtPrim(xty: ExtType)

  datatype WireType =
    | PrimType(pty: WirePrimType)
    | OptionType(ty: WireType)
    | SetType(ty: WireType)
    | RecordType(rty: seq<WireField>)

  datatype WireField = WireField(key: string, ty: WireType)

  datatype WirePattern = Star | JustChar(c: nat)

  type WireOp = Operator<WireType, WirePattern>

  datatype WireTerm =
    | WPrim(p: WirePrim)
    | WVar(id: string, ty: WireType)
    | WNone(ty: WireType)
    | WSome(t: WireTerm)
    | WSet(elts: seq<WireTerm>, eltsTy: WireType)
    | WRecord(entries: seq<WireEntry>)
    | WApp(op: WireOp, args: seq<WireTerm>, retTy: WireType)

  datatype WireEntry = WireEntry(key: string, term: WireTerm)

  // ----- the internal terms -----

  datatype Bitvec = Bitvec(width: nat, val: nat)

  datatype Cidr = Cidr(addr: Bitvec, prefix: Option<Bitvec>)

  datatype Ext =
    | Decimal(d: int)
    | V4(v4: Cidr)
    | V6(v6: Cidr)
    | Datetime(dt: int)
    | Duration(dur: int)

  datatype Prim =
    | Bool(b: bool)
    | Bits(bv: Bitvec)
    | String(s: string)
    | Entity(ty: string, eid: string)
    | Extension(ext: Ext)

  datatype Type =
    | BoolT
    | BitvecT(n: nat)
    | StringT
    | EntityT(ety: string)
    | ExtT(xty: ExtType)
    | OptionT(ty: Type)
    | SetT(ty: Type)
    | RecordT(rty: map<string, Type>)

  datatype Pattern = Wildcard | Char(c: nat)

  type Op = Operator<Type, Pattern>

  datatype Term =
    | TPrim(p: Prim)
    | TVar(id: string, ty: Type)
    | TNone(ty: Type)
    | TSome(t: Term)
    | TSet(elts: set<Term>, eltsTy: Type)
    | TRecord(entries: map<string, Term>)
    | TApp(op: Op, args: seq<Term>, retTy: Type)

  // ----- wire to internal -----

  function DecodeFields(rty: seq<WireField>): map<string, Type>
    decreases rty
  {
    if rty == [] then map[]
    else map[rty[0].key := DecodeType(rty[0].ty)] + DecodeFields(rty[1..])
  }

  function DecodeType(t: WireType): Type
    decreases t
  {
    match t
    case PrimType(BoolPrim) => BoolT
    case PrimType(BitvecPrim(n)) => BitvecT(n)
    case PrimType(StringPrim) => StringT
    case PrimType(EntityPrim(ety)) => EntityT(ety)
    case PrimType(ExtPrim(xty)) => ExtT(xty)
    case OptionType(ty) => OptionT(DecodeType(ty))
    case SetType(ty) => SetT(DecodeType(ty))
    case RecordType(rty) => RecordT(DecodeFields(rty))
  }

  function Pow2(n: nat): (p: nat)
    ensures p > 0
  {
    if n == 0 then 1 else 2 * Pow2(n - 1)
  }

  function DecodeBitvec(b: WireBitvec): Result<Bitvec, ConversionError> {
    if b.width == 0 then Err(ZeroWidth)
    else
      match ParseNat(b.val)
      case None => Err(ParseBigInt)
      case Some(n) => Ok(Bitvec(b.width, n % Pow2(b.width)))
  }

  function OfWidth(b: Bitvec, width: nat): Result<Bitvec, ConversionError> {
    if b.width == width then Ok(b) else Err(UnexpectedWidth)
  }

  /** Address and prefix widths of the two versions of the internet protocol */
  const V4_ADDR := 32
  const V4_PREFIX := 5
  const V6_ADDR := 128
  const V6_PREFIX := 7

  function DecodeCidr(c: WireCidr, addrWidth: nat, prefixWidth: nat): Result<Cidr, ConversionError> {
    var addr :- DecodeBitvec(c.addr);
    var addr' :- OfWidth(addr, addrWidth);
    match c.prefix
    case None => Ok(Cidr(addr', None))
    case Some(p) =>
      var prefix :- DecodeBitvec(p);
      var prefix' :- OfWidth(prefix, prefixWidth);
      Ok(Cidr(addr', Some(prefix')))
  }

  function DecodeExt(e: WireExt): Result<Ext, ConversionError> {
    match e
    case WireDecimal(d) => Ok(Decimal(d))
    case WireDatetime(dt) => Ok(Datetime(dt))
    case WireDuration(dur) => Ok(Duration(dur))
    case WireV4(c) =>
      var c' :- DecodeCidr(c, V4_ADDR, V4_PREFIX);
      Ok(V4(c'))
    case WireV6(c) =>
      var c' :- DecodeCidr(c, V6_ADDR, V6_PREFIX);
      Ok(V6(c'))
  }

  function DecodePrim(p: WirePrim): Result<Prim, ConversionError> {
    match p
    case WireBool(b) => Ok(Bool(b))
    case WireString(s) => Ok(String(s))
    case WireEntity(ty, eid) => Ok(Entity(ty, eid))
    case WireBits(bv) =>
      var bv' :- DecodeBitvec(bv);
      Ok(Bits(bv'))
    case WireExtension(ext) =>
      var ext' :- DecodeExt(ext);
      Ok(Extension(ext'))
  }

  /** The Unicode scalar values */
  predicate IsScalar(c: nat) {
    c < 0xD800 || 0xE000 <= c <= 0x10FFFF
  }

  function DecodePattern(pattern: seq<WirePattern>): Result<seq<Pattern>, ConversionError> {
    if pattern == [] then Ok([])
    else
      var first :- if pattern[0].Star? then Ok(Wildcard)
                   else if IsScalar(pattern[0].c) then Ok(Char(pattern[0].c)) else Err(CharConversion);
      var rest :- DecodePattern(pattern[1..]);
      Ok([first] + rest)
  }

  function DecodeOp(op: WireOp): Result<Op, ConversionError> {
    match op
    case Uuf(id, arg, out) => Ok(Uuf(id, DecodeType(arg), DecodeType(out)))
    case ZeroExtend(n) => Ok(ZeroExtend(n))
    case RecordGet(attr) => Ok(RecordGet(attr))
    case StringLike(pattern) =>
      var pattern' :- DecodePattern(pattern);
      Ok(StringLike(pattern'))
    case ExtensionOp(xop) => Ok(ExtensionOp(xop))
    case _ => Ok(Plain(op))
  }

  function SetOf<T>(s: seq<T>): set<T> {
    set x | x in s
  }

  /** `TryFrom<Term>`: collecting removes duplicates, and the last entry of a key wins. */
  function Decode(t: WireTerm): Result<Term, ConversionError>
    decreases t
  {
    match t
    case WPrim(p) =>
      var p' :- DecodePrim(p);
      Ok(TPrim(p'))
    case WVar(id, ty) => Ok(TVar(id, DecodeType(ty)))
    case WNone(ty) => Ok(TNone(DecodeType(ty)))
    case WSome(inner) =>
      var inner' :- Decode(inner);
      Ok(TSome(inner'))
    case WSet(elts, eltsTy) =>
      var elts' :- DecodeAll(elts);
      Ok(TSet(SetOf(elts'), DecodeType(eltsTy)))
    case WRecord(entries) =>
      var entries' :- DecodeEntries(entries);
      Ok(TRecord(entries'))
    case WApp(op, args, retTy) =>
      var op' :- DecodeOp(op);
      var args' :- DecodeAll(args);
      Ok(TApp(op', args', DecodeType(retTy)))
  }

  function DecodeAll(ts: seq<WireTerm>): (r: Result<seq<Term>, ConversionError>)
    ensures r.Ok? ==> |r.value| == |ts|
    decreases ts
  {
    if ts == [] then Ok([])
    else
      var first :- Decode(ts[0]);
      var rest :- DecodeAll(ts[1..]);
      Ok([first] + rest)
  }

  function DecodeEntries(entries: seq<WireEntry>): Result<map<string, Term>, ConversionError>
    decreases entries
  {
    if entries == [] then Ok(map[])
    else
      var first :- Decode(entries[0].term);
      var rest :- DecodeEntries(entries[1..]);
      Ok(map[entries[0].key := first] + rest)
  }

  // ----- internal to wire -----

  /** The orders in which ordered sets of terms and record keys are listed */
  datatype Orders = Orders(terms: set<Term> -> seq<Term>, keys: set<string> -> seq<string>)

  ghost predicate Listing(o: Orders) {
    && (forall s :: Distinct(o.terms(s)))
    && (forall s, x :: x in o.terms(s) <==> x in s)
    && (forall s :: Distinct(o.keys(s)))
    && (forall s, x :: x in o.keys(s) <==> x in s)
  }

  function EncodeFields(o: Orders, keys: seq<string>, parent: Type): seq<WireField>
    requires Listing(o) && parent.RecordT? && forall k :: k in keys ==> k in parent.rty
    decreases parent, |keys|
  {
    if keys == [] then []
    else
      assert keys[0] in parent.rty;
      [WireField(keys[0], EncodeType(o, parent.rty[keys[0]]))] + EncodeFields(o, keys[1..], parent)
  }

  function EncodeType(o: Orders, t: Type): WireType
    requires Listing(o)
    decreases t
  {
    match t
    case BoolT => PrimType(BoolPrim)
    case BitvecT(n) => PrimType(BitvecPrim(n))
    case StringT => PrimType(StringPrim)
    case EntityT(ety) => PrimType(EntityPrim(ety))
    case ExtT(xty) => PrimType(ExtPrim(xty))
    case OptionT(ty) => OptionType(EncodeType(o, ty))
    case SetT(ty) => SetType(EncodeType(o, ty))
    case RecordT(rty) => RecordType(EncodeFields(o, o.keys(rty.Keys), t))
  }

  function EncodeBitvec(b: Bitvec): WireBitvec {
    WireBitvec(b.width, Numeral(b.val))
  }

  function EncodeCidr(c: Cidr): WireCidr {
    WireCidr(EncodeBitvec(c.addr), if c.prefix.None? then None else Some(EncodeBitvec(c.prefix.value)))
  }

  function EncodePrim(p: Prim): WirePrim {
    match p
    case Bool(b) => WireBool(b)
    case Bits(bv) => WireBits(EncodeBitvec(bv))
    case String(s) => WireString(s)
    case Entity(ty, eid) => WireEntity(ty, eid)
    case Extension(Decimal(d)) => WireExtension(WireDecimal(d))
    case Extension(Datetime(dt)) => WireExtension(WireDatetime(dt))
    case Extension(Duration(dur)) => WireExtension(WireDuration(dur))
    case Extension(V4(c)) => WireExtension(WireV4(EncodeCidr(c)))
    case Extension(V6(c)) => WireExtension(WireV6(EncodeCidr(c)))
  }

  function EncodePattern(pattern: seq<Pattern>): seq<WirePattern> {
    if pattern == [] then []
    else [if pattern[0].Wildcard? then Star else JustChar(pattern[0].c)] + EncodePattern(pattern[1..])
  }

  function EncodeOp(o: Orders, op: Op): WireOp
    requires Listing(o)
  {
    match op
    case Uuf(id, arg, out) => Uuf(id, EncodeType(o, arg), EncodeType(o, out))
    case ZeroExtend(n) => ZeroExtend(n)
    case RecordGet(attr) => RecordGet(attr)
    case StringLike(pattern) => StringLike(EncodePattern(pattern))
    case ExtensionOp(xop) => ExtensionOp(xop)
    case _ => Plain(op)
  }

  /** A direct subterm */
  ghost predicate Inside(t: Term, parent: Term) {
    match parent
    case TSome(inner) => t == inner
    case TSet(elts, _) => t in elts
    case TRecord(entries) => exists k :: k in entries && entries[k] == t
    case TApp(_, args, _) => t in args
    case _ => false
  }

  function Encode(o: Orders, t: Term): WireTerm
    requires Listing(o)
    decreases t
  {
    match t
    case TPrim(p) => WPrim(EncodePrim(p))
    case TVar(id, ty) => WVar(id, EncodeType(o, ty))
    case TNone(ty) => WNone(EncodeType(o, ty))
    case TSome(inner) => WSome(Encode(o, inner))
    case TSet(elts, eltsTy) => WSet(EncodeAll(o, o.terms(elts), t), EncodeType(o, eltsTy))
    case TRecord(entries) => WRecord(EncodeEntries(o, o.keys(entries.Keys), t))
    case TApp(op, args, retTy) => WApp(EncodeOp(o, op), EncodeAll(o, args, t), EncodeType(o, retTy))
  }

  function EncodeAll(o: Orders, ts: seq<Term>, ghost parent: Term): (r: seq<WireTerm>)
    requires Listing(o) && (parent.TSet? || parent.TApp?) && forall t :: t in ts ==> Inside(t, parent)
    ensures |r| == |ts|
    decreases parent, |ts|
  {
    if ts == [] then []
    else
      assert Inside(ts[0], parent);
      [Encode(o, ts[0])] + EncodeAll(o, ts[1..], parent)
  }

  function EncodeEntries(o: Orders, keys: seq<string>, parent: Term): seq<WireEntry>
    requires Listing(o) && parent.TRecord? && forall k :: k in keys ==> k in parent.entries
    decreases parent, |keys|
  {
    if keys == [] then []
    else
      assert keys[0] in parent.entries;
      [WireEntry(keys[0], Encode(o, parent.entries[keys[0]]))] + EncodeEntries(o, keys[1..], parent)
  }
}

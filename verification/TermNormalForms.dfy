/** The conversion of wire terms to internal ones and back: what it changes, and which terms it leaves
    alone. */
module TermNormalForms {
  import opened Wrappers
  import opened Numerals
  import opened Terms
  import opened TermProofs

  /** The normal form of a wire term that decodes */
  ghost function Normalize(o: Orders, t: WireTerm): WireTerm
    requires Listing(o) && Decode(t).Ok?
  {
    Encode(o, Decode(t).value)
  }

  /** Normalizing changes nothing that decoding can see, and normalizing again changes nothing. */
  lemma NormalizeIdempotent(o: Orders, t: WireTerm)
    requires Listing(o) && InRange(t) && Decode(t).Ok?
    ensures Decode(Normalize(o, t)) == Decode(t)
    ensures Normalize(o, Normalize(o, t)) == Normalize(o, t)
  {
    DecodedWf(t);
    TermRoundTrip(o, Decode(t).value);
  }

  /** Two wire terms have the same normal form exactly when they decode to the same term. */
  lemma NormalFormsDecide(o: Orders, t: WireTerm, t': WireTerm)
    requires Listing(o) && InRange(t) && InRange(t') && Decode(t).Ok? && Decode(t').Ok?
    ensures Normalize(o, t) == Normalize(o, t') <==> Decode(t) == Decode(t')
  {
    NormalizeIdempotent(o, t);
    NormalizeIdempotent(o, t');
  }

  lemma {:induction false} EncodedAt(o: Orders, ts: seq<Term>, parent: Term, i: nat)
    requires Listing(o) && (parent.TSet? || parent.TApp?) && i < |ts|
    requires forall t :: t in ts ==> Inside(t, parent)
    ensures EncodeAll(o, ts, parent)[i] == Encode(o, ts[i])
    decreases i
  {
    if i > 0 { EncodedAt(o, ts[1..], parent, i - 1); }
  }

  lemma {:induction false} DecodedAt(ts: seq<WireTerm>, i: nat)
    requires DecodeAll(ts).Ok? && i < |ts|
    ensures Decode(ts[i]) == Ok(DecodeAll(ts).value[i])
    decreases i
  {
    if i > 0 { DecodedAt(ts[1..], i - 1); }
  }

  lemma EncodedMember(o: Orders, ts: seq<Term>, parent: Term, x: WireTerm)
    requires Listing(o) && (parent.TSet? || parent.TApp?) && forall t :: t in ts ==> Inside(t, parent)
    ensures x in EncodeAll(o, ts, parent) <==> exists t :: t in ts && x == Encode(o, t)
  {
    var all := EncodeAll(o, ts, parent);
    if x in all {
      var i :| 0 <= i < |all| && all[i] == x;
      EncodedAt(o, ts, parent, i);
      assert ts[i] in ts;
    }
    if t :| t in ts && x == Encode(o, t) {
      var i :| 0 <= i < |ts| && ts[i] == t;
      EncodedAt(o, ts, parent, i);
      assert all[i] in all;
    }
  }

  lemma NormalMember(o: Orders, elts: seq<WireTerm>, x: WireTerm)
    requires Listing(o) && DecodeAll(elts).Ok?
    ensures (exists t :: t in DecodeAll(elts).value && x == Encode(o, t))
       <==> exists i :: 0 <= i < |elts| && Decode(elts[i]).Ok? && x == Normalize(o, elts[i])
  {
    var terms := DecodeAll(elts).value;
    forall i | 0 <= i < |elts|
      ensures Decode(elts[i]) == Ok(terms[i])
    {
      DecodedAt(elts, i);
    }
    if t :| t in terms && x == Encode(o, t) {
      var i :| 0 <= i < |terms| && terms[i] == t;
      assert Decode(elts[i]).Ok? && x == Normalize(o, elts[i]);
    }
    if i :| 0 <= i < |elts| && Decode(elts[i]).Ok? && x == Normalize(o, elts[i]) {
      assert terms[i] in terms;
    }
  }

  lemma EncodedDistinct(o: Orders, ts: seq<Term>, parent: Term)
    requires Listing(o) && (parent.TSet? || parent.TApp?) && WfTerm(parent) && Distinct(ts)
    requires forall t :: t in ts ==> Inside(t, parent)
    ensures Distinct(EncodeAll(o, ts, parent))
  {
    AllRoundTrip(o, ts, parent);
    var all := EncodeAll(o, ts, parent);
    forall i, j | 0 <= i < j < |all|
      ensures all[i] != all[j]
    {
      DecodedAt(all, i);
      DecodedAt(all, j);
    }
  }

  /** Normalizing a set keeps the normal forms of its elements, each once, in the order of the terms
      they stand for. */
  lemma NormalizeSet(o: Orders, elts: seq<WireTerm>, eltsTy: WireType, x: WireTerm)
    requires Listing(o) && InRange(WSet(elts, eltsTy)) && DecodeAll(elts).Ok?
    ensures var normal := Normalize(o, WSet(elts, eltsTy));
            && normal.WSet? && DecodeAll(normal.elts) == Ok(o.terms(SetOf(DecodeAll(elts).value)))
            && Distinct(normal.elts)
            && (x in normal.elts <==> exists i :: 0 <= i < |elts| && Decode(elts[i]).Ok? && x == Normalize(o, elts[i]))
  {
    var t := WSet(elts, eltsTy);
    var listed, parent := o.terms(SetOf(DecodeAll(elts).value)), Decode(t).value;
    DecodedWf(t);
    AllRoundTrip(o, listed, parent);
    EncodedDistinct(o, listed, parent);
    EncodedMember(o, listed, parent, x);
    NormalMember(o, elts, x);
  }

  /** Normalizing an application keeps its arguments, each normalized, in their places. */
  lemma NormalizeArgs(o: Orders, op: WireOp, args: seq<WireTerm>, retTy: WireType, i: nat)
    requires Listing(o) && Decode(WApp(op, args, retTy)).Ok? && i < |args|
    ensures var normal := Normalize(o, WApp(op, args, retTy));
            && normal.WApp? && |normal.args| == |args|
            && Decode(args[i]).Ok? && normal.args[i] == Normalize(o, args[i])
  {
    DecodedAt(args, i);
    EncodedAt(o, DecodeAll(args).value, Decode(WApp(op, args, retTy)).value, i);
  }

  function KeysOf(entries: seq<WireEntry>): set<string> {
    set i | 0 <= i < |entries| :: entries[i].key
  }

  lemma {:induction false} LastEntryWins(entries: seq<WireEntry>, i: nat)
    requires DecodeEntries(entries).Ok? && i < |entries|
    requires forall j | i < j < |entries| :: entries[j].key != entries[i].key
    ensures var all := DecodeEntries(entries).value;
            entries[i].key in all && Decode(entries[i].term) == Ok(all[entries[i].key])
    decreases entries
  {
    DecodedKeys(entries[1..]);
    if i > 0 { LastEntryWins(entries[1..], i - 1); }
  }

  lemma {:induction false} DecodedKeys(entries: seq<WireEntry>)
    requires DecodeEntries(entries).Ok?
    ensures DecodeEntries(entries).value.Keys == KeysOf(entries)
    decreases entries
  {
    if entries != [] {
      DecodedKeys(entries[1..]);
      assert KeysOf(entries) == {entries[0].key} + KeysOf(entries[1..]);
    }
  }

  lemma {:induction false} EncodedEntryAt(o: Orders, keys: seq<string>, parent: Term, j: nat)
    requires Listing(o) && parent.TRecord? && (forall k :: k in keys ==> k in parent.entries)
    ensures |EncodeEntries(o, keys, parent)| == |keys|
    ensures j < |keys| ==> EncodeEntries(o, keys, parent)[j] == WireEntry(keys[j], Encode(o, parent.entries[keys[j]]))
    decreases |keys|
  {
    if keys != [] { EncodedEntryAt(o, keys[1..], parent, if j == 0 then 0 else j - 1); }
  }

  lemma EncodedEntry(o: Orders, keys: seq<string>, parent: Term, key: string)
    requires Listing(o) && parent.TRecord? && (forall k :: k in keys ==> k in parent.entries) && key in keys
    ensures WireEntry(key, Encode(o, parent.entries[key])) in EncodeEntries(o, keys, parent)
  {
  }

  lemma EncodedKeys(o: Orders, keys: seq<string>, parent: Term)
    requires Listing(o) && parent.TRecord? && (forall k :: k in keys ==> k in parent.entries)
    ensures var all := EncodeEntries(o, keys, parent);
            |all| == |keys| && forall j | 0 <= j < |all| :: all[j].key == keys[j]
  {
  }

  lemma NormalRecord(o: Orders, entries: seq<WireEntry>)
    requires Listing(o) && DecodeEntries(entries).Ok?
    ensures var parent := TRecord(DecodeEntries(entries).value);
            && parent.entries.Keys == KeysOf(entries) && Decode(WRecord(entries)) == Ok(parent)
            && Normalize(o, WRecord(entries)) == WRecord(EncodeEntries(o, o.keys(KeysOf(entries)), parent))
  {
    DecodedKeys(entries);
  }

  /** Normalizing a record keeps its keys, each once and in order. */
  lemma NormalizeKeys(o: Orders, entries: seq<WireEntry>)
    requires Listing(o) && DecodeEntries(entries).Ok?
    ensures var normal := Normalize(o, WRecord(entries));
            && normal.WRecord? && |normal.entries| == |o.keys(KeysOf(entries))|
            && forall j | 0 <= j < |normal.entries| :: normal.entries[j].key == o.keys(KeysOf(entries))[j]
  {
    NormalRecord(o, entries);
    EncodedKeys(o, o.keys(KeysOf(entries)), TRecord(DecodeEntries(entries).value));
  }

  /** Under each key it keeps the normal form of the last entry. */
  lemma NormalizeEntry(o: Orders, entries: seq<WireEntry>, i: nat)
    requires Listing(o) && DecodeEntries(entries).Ok? && i < |entries|
    requires forall j | i < j < |entries| :: entries[j].key != entries[i].key
    ensures var normal := Normalize(o, WRecord(entries));
            && normal.WRecord? && Decode(entries[i].term).Ok?
            && WireEntry(entries[i].key, Normalize(o, entries[i].term)) in normal.entries
  {
    NormalRecord(o, entries);
    LastEntryWins(entries, i);
    EncodedEntry(o, o.keys(KeysOf(entries)), TRecord(DecodeEntries(entries).value), entries[i].key);
  }

  // ----- the terms left alone -----

  /** The usual numeral of a number below 2^width */
  predicate CanonicalBits(b: WireBitvec) {
    match ParseNat(b.val)
    case None => false
    case Some(n) => n < Pow2(b.width) && Numeral(n) == b.val
  }

  predicate CanonicalCidr(c: WireCidr) {
    CanonicalBits(c.addr) && (c.prefix.Some? ==> CanonicalBits(c.prefix.value))
  }

  predicate CanonicalPrim(p: WirePrim) {
    match p
    case WireBits(bv) => CanonicalBits(bv)
    case WireExtension(WireV4(c)) => CanonicalCidr(c)
    case WireExtension(WireV6(c)) => CanonicalCidr(c)
    case _ => true
  }

  function FieldKeys(rty: seq<WireField>): seq<string> {
    seq(|rty|, i requires 0 <= i < |rty| => rty[i].key)
  }

  function EntryKeys(entries: seq<WireEntry>): seq<string> {
    seq(|entries|, i requires 0 <= i < |entries| => entries[i].key)
  }

  /** Each key once and in order */
  ghost predicate Listed(o: Orders, keys: seq<string>) {
    keys == o.keys(SetOf(keys))
  }

  ghost predicate CanonicalType(o: Orders, t: WireType) {
    match t
    case OptionType(ty) => CanonicalType(o, ty)
    case SetType(ty) => CanonicalType(o, ty)
    case RecordType(rty) => Listed(o, FieldKeys(rty)) && forall f <- rty :: CanonicalType(o, f.ty)
    case _ => true
  }

  ghost predicate CanonicalOp(o: Orders, op: WireOp) {
    op.Uuf? ==> CanonicalType(o, op.arg) && CanonicalType(o, op.out)
  }

  /** Numbers are canonical; the fields of record types and the entries of records are listed once and
      in order; the elements of sets stand for different terms, in order. */
  ghost predicate Canonical(o: Orders, t: WireTerm) {
    match t
    case WPrim(p) => CanonicalPrim(p)
    case WVar(_, ty) => CanonicalType(o, ty)
    case WNone(ty) => CanonicalType(o, ty)
    case WSome(inner) => Canonical(o, inner)
    case WSet(elts, eltsTy) =>
      && (forall x <- elts :: Canonical(o, x)) && CanonicalType(o, eltsTy)
      && DecodeAll(elts).Ok? && DecodeAll(elts).value == o.terms(SetOf(DecodeAll(elts).value))
    case WRecord(entries) => Listed(o, EntryKeys(entries)) && forall e <- entries :: Canonical(o, e.term)
    case WApp(op, args, retTy) =>
      CanonicalOp(o, op) && (forall x <- args :: Canonical(o, x)) && CanonicalType(o, retTy)
  }

  /** A bit-vector keeps its width and gets the usual numeral of its number modulo 2^width. */
  lemma NormalizeBits(b: WireBitvec)
    requires DecodeBitvec(b).Ok?
    ensures EncodeBitvec(DecodeBitvec(b).value)
         == WireBitvec(b.width, Numeral(ParseNat(b.val).value % Pow2(b.width)))
    ensures EncodeBitvec(DecodeBitvec(b).value) == b <==> CanonicalBits(b)
  {
    var n := ParseNat(b.val).value;
    var m := n % Pow2(b.width);
    if Numeral(m) == b.val { NumeralRoundTrip(m); }
    if n < Pow2(b.width) { SmallRemainder(n, Pow2(b.width)); }
  }

  lemma NormalizeCidr(c: WireCidr, addrWidth: nat, prefixWidth: nat)
    requires DecodeCidr(c, addrWidth, prefixWidth).Ok?
    ensures EncodeCidr(DecodeCidr(c, addrWidth, prefixWidth).value) == c <==> CanonicalCidr(c)
  {
    NormalizeBits(c.addr);
    if c.prefix.Some? { NormalizeBits(c.prefix.value); }
  }

  lemma NormalizePrim(p: WirePrim)
    requires DecodePrim(p).Ok?
    ensures EncodePrim(DecodePrim(p).value) == p <==> CanonicalPrim(p)
  {
    match p
    case WireBits(bv) => NormalizeBits(bv);
    case WireExtension(WireV4(c)) => NormalizeCidr(c, V4_ADDR, V4_PREFIX);
    case WireExtension(WireV6(c)) => NormalizeCidr(c, V6_ADDR, V6_PREFIX);
    case _ =>
  }

  lemma {:induction false} PatternFixed(pattern: seq<WirePattern>)
    requires DecodePattern(pattern).Ok?
    ensures EncodePattern(DecodePattern(pattern).value) == pattern
  {
    if pattern != [] {
      PatternFixed(pattern[1..]);
      assert DecodePattern(pattern).value[1..] == DecodePattern(pattern[1..]).value;
      assert pattern == [pattern[0]] + pattern[1..];
    }
  }

  // ----- record types -----

  lemma {:induction false} DecodedFieldKeys(rty: seq<WireField>)
    ensures DecodeFields(rty).Keys == SetOf(FieldKeys(rty))
  {
    if rty != [] {
      DecodedFieldKeys(rty[1..]);
      assert FieldKeys(rty) == [rty[0].key] + FieldKeys(rty[1..]);
    }
  }

  lemma {:induction false} DistinctField(rty: seq<WireField>, j: nat)
    requires Distinct(FieldKeys(rty)) && j < |rty|
    ensures rty[j].key in DecodeFields(rty) && DecodeFields(rty)[rty[j].key] == DecodeType(rty[j].ty)
    decreases rty
  {
    DecodedFieldKeys(rty[1..]);
    assert FieldKeys(rty) == [rty[0].key] + FieldKeys(rty[1..]);
    if j > 0 {
      assert Distinct(FieldKeys(rty[1..])) by {
        forall a, b | 0 <= a < b < |rty[1..]|
          ensures FieldKeys(rty[1..])[a] != FieldKeys(rty[1..])[b]
        {
          assert FieldKeys(rty)[a + 1] != FieldKeys(rty)[b + 1];
        }
      }
      DistinctField(rty[1..], j - 1);
    } else {
      forall a | 0 <= a < |rty[1..]|
        ensures FieldKeys(rty[1..])[a] != rty[0].key
      {
        assert FieldKeys(rty)[a + 1] != FieldKeys(rty)[0];
      }
    }
  }

  lemma {:induction false} EncodedFieldAt(o: Orders, keys: seq<string>, parent: Type, j: nat)
    requires Listing(o) && parent.RecordT? && (forall k :: k in keys ==> k in parent.rty)
    ensures |EncodeFields(o, keys, parent)| == |keys|
    ensures j < |keys| ==>
              EncodeFields(o, keys, parent)[j] == WireField(keys[j], EncodeType(o, parent.rty[keys[j]]))
    decreases |keys|
  {
    if keys != [] { EncodedFieldAt(o, keys[1..], parent, if j == 0 then 0 else j - 1); }
  }

  lemma EncodedFieldKeys(o: Orders, keys: seq<string>, parent: Type)
    requires Listing(o) && parent.RecordT? && (forall k :: k in keys ==> k in parent.rty)
    ensures FieldKeys(EncodeFields(o, keys, parent)) == keys
  {
    EncodedFieldAt(o, keys, parent, 0);
    forall j | 0 <= j < |keys|
      ensures FieldKeys(EncodeFields(o, keys, parent))[j] == keys[j]
    {
      EncodedFieldAt(o, keys, parent, j);
    }
  }

  function Reencoded(o: Orders, rty: seq<WireField>): seq<WireField>
    requires Listing(o)
  {
    DecodedFieldKeys(rty);
    EncodeFields(o, o.keys(SetOf(FieldKeys(rty))), RecordT(DecodeFields(rty)))
  }

  lemma ReencodedField(o: Orders, rty: seq<WireField>, j: nat)
    requires Listing(o) && Listed(o, FieldKeys(rty)) && j < |rty|
    ensures |Reencoded(o, rty)| == |rty|
    ensures Reencoded(o, rty)[j] == WireField(rty[j].key, EncodeType(o, DecodeType(rty[j].ty)))
  {
    DecodedFieldKeys(rty);
    EncodedFieldAt(o, FieldKeys(rty), RecordT(DecodeFields(rty)), j);
    DistinctField(rty, j);
  }

  lemma ReencodedIff(o: Orders, rty: seq<WireField>)
    requires Listing(o)
    requires forall f <- rty :: EncodeType(o, DecodeType(f.ty)) == f.ty <==> CanonicalType(o, f.ty)
    ensures Reencoded(o, rty) == rty <==> Listed(o, FieldKeys(rty)) && forall f <- rty :: CanonicalType(o, f.ty)
  {
    DecodedFieldKeys(rty);
    EncodedFieldKeys(o, o.keys(SetOf(FieldKeys(rty))), RecordT(DecodeFields(rty)));
    if Listed(o, FieldKeys(rty)) {
      forall j | 0 <= j < |rty|
        ensures |Reencoded(o, rty)| == |rty| && (Reencoded(o, rty)[j] == rty[j] <==> CanonicalType(o, rty[j].ty))
      {
        assert rty[j] in rty;
        ReencodedField(o, rty, j);
      }
      assert |Reencoded(o, rty)| == |rty| by { EncodedFieldAt(o, FieldKeys(rty), RecordT(DecodeFields(rty)), 0); }
    }
  }

  lemma {:induction false} TypeCanonicalIff(o: Orders, t: WireType)
    requires Listing(o)
    ensures EncodeType(o, DecodeType(t)) == t <==> CanonicalType(o, t)
    decreases t
  {
    match t
    case OptionType(ty) => TypeCanonicalIff(o, ty);
    case SetType(ty) => TypeCanonicalIff(o, ty);
    case RecordType(rty) =>
      forall f | f in rty
        ensures EncodeType(o, DecodeType(f.ty)) == f.ty <==> CanonicalType(o, f.ty)
      {
        TypeCanonicalIff(o, f.ty);
      }
      ReencodedIff(o, rty);
      DecodedFieldKeys(rty);
    case _ =>
  }

  lemma PlainOpFixed(o: Orders, op: WireOp)
    requires Listing(o) && !HasData(op)
    ensures DecodeOp(op).Ok? && EncodeOp(o, DecodeOp(op).value) == op && CanonicalOp(o, op)
  {
    PlainTwice<WireType, WirePattern, Type, Pattern>(op);
  }

  lemma OpCanonicalIff(o: Orders, op: WireOp)
    requires Listing(o) && DecodeOp(op).Ok?
    ensures EncodeOp(o, DecodeOp(op).value) == op <==> CanonicalOp(o, op)
  {
    if !HasData(op) {
      PlainOpFixed(o, op);
    } else if op.Uuf? {
      TypeCanonicalIff(o, op.arg);
      TypeCanonicalIff(o, op.out);
    } else if op.StringLike? {
      PatternFixed(op.pattern);
    }
  }

  // ----- sets, arguments and records -----

  ghost predicate Fixed(o: Orders, t: WireTerm)
    requires Listing(o)
  {
    Decode(t).Ok? && Encode(o, Decode(t).value) == t
  }

  lemma ListFixedIff(o: Orders, ts: seq<WireTerm>, parent: Term)
    requires Listing(o) && DecodeAll(ts).Ok? && (parent.TSet? || parent.TApp?)
    requires forall t :: t in DecodeAll(ts).value ==> Inside(t, parent)
    ensures EncodeAll(o, DecodeAll(ts).value, parent) == ts <==> forall t <- ts :: Fixed(o, t)
  {
    var terms := DecodeAll(ts).value;
    var encoded := EncodeAll(o, terms, parent);
    forall i | 0 <= i < |ts|
      ensures encoded[i] == ts[i] <==> Fixed(o, ts[i])
    {
      DecodedAt(ts, i);
      EncodedAt(o, terms, parent, i);
    }
    if encoded == ts {
      forall t | t in ts
        ensures Fixed(o, t)
      {
        var i :| 0 <= i < |ts| && ts[i] == t;
      }
    }
  }

  /** A set is fixed when its elements stand for different terms in order, and are fixed. */
  lemma SetFixedIff(o: Orders, elts: seq<WireTerm>, eltsTy: WireType)
    requires Listing(o) && InRange(WSet(elts, eltsTy)) && DecodeAll(elts).Ok?
    ensures var terms := DecodeAll(elts).value;
            EncodeAll(o, o.terms(SetOf(terms)), TSet(SetOf(terms), DecodeType(eltsTy))) == elts
            <==> terms == o.terms(SetOf(terms)) && forall t <- elts :: Fixed(o, t)
  {
    var terms := DecodeAll(elts).value;
    var parent := TSet(SetOf(terms), DecodeType(eltsTy));
    DecodedWf(WSet(elts, eltsTy));
    AllRoundTrip(o, o.terms(SetOf(terms)), parent);
    ListFixedIff(o, elts, parent);
  }

  lemma EntryDecoded(entries: seq<WireEntry>, i: nat)
    requires DecodeEntries(entries).Ok? && Distinct(EntryKeys(entries)) && i < |entries|
    ensures var all := DecodeEntries(entries).value;
            entries[i].key in all && Decode(entries[i].term) == Ok(all[entries[i].key])
  {
    forall j | i < j < |entries|
      ensures entries[j].key != entries[i].key
    {
      assert EntryKeys(entries)[j] != EntryKeys(entries)[i];
    }
    LastEntryWins(entries, i);
  }

  function ReencodedEntries(o: Orders, entries: seq<WireEntry>): seq<WireEntry>
    requires Listing(o) && DecodeEntries(entries).Ok?
  {
    DecodedKeys(entries);
    EncodeEntries(o, o.keys(KeysOf(entries)), TRecord(DecodeEntries(entries).value))
  }

  lemma SameKeys(entries: seq<WireEntry>)
    ensures SetOf(EntryKeys(entries)) == KeysOf(entries)
  {
    forall k
      ensures k in SetOf(EntryKeys(entries)) <==> k in KeysOf(entries)
    {
      if k in KeysOf(entries) {
        var i :| 0 <= i < |entries| && entries[i].key == k;
        assert EntryKeys(entries)[i] == k;
      }
    }
  }

  lemma ReencodedEntry(o: Orders, entries: seq<WireEntry>, i: nat)
    requires Listing(o) && DecodeEntries(entries).Ok? && Listed(o, EntryKeys(entries)) && i < |entries|
    ensures |ReencodedEntries(o, entries)| == |entries|
    ensures ReencodedEntries(o, entries)[i] == entries[i] <==> Fixed(o, entries[i].term)
  {
    SameKeys(entries);
    DecodedKeys(entries);
    EncodedEntryAt(o, EntryKeys(entries), TRecord(DecodeEntries(entries).value), i);
    EntryDecoded(entries, i);
  }

  lemma FixedKeysListed(o: Orders, entries: seq<WireEntry>)
    requires Listing(o) && DecodeEntries(entries).Ok? && ReencodedEntries(o, entries) == entries
    ensures Listed(o, EntryKeys(entries))
  {
    SameKeys(entries);
    DecodedKeys(entries);
    EncodedKeys(o, o.keys(KeysOf(entries)), TRecord(DecodeEntries(entries).value));
    assert EntryKeys(entries) == o.keys(KeysOf(entries));
  }

  lemma ListedEntriesFixed(o: Orders, entries: seq<WireEntry>)
    requires Listing(o) && DecodeEntries(entries).Ok? && Listed(o, EntryKeys(entries))
    requires forall e <- entries :: Fixed(o, e.term)
    ensures ReencodedEntries(o, entries) == entries
  {
    if entries == [] {
      SameKeys(entries);
      DecodedKeys(entries);
      EncodedEntryAt(o, EntryKeys(entries), TRecord(DecodeEntries(entries).value), 0);
    } else {
      ReencodedEntry(o, entries, 0);
    }
    forall i | 0 <= i < |entries|
      ensures ReencodedEntries(o, entries)[i] == entries[i]
    {
      ReencodedEntry(o, entries, i);
    }
  }

  /** A record is fixed when its keys are listed once in order and its entries are fixed. */
  lemma RecordFixedIff(o: Orders, entries: seq<WireEntry>)
    requires Listing(o) && DecodeEntries(entries).Ok?
    ensures ReencodedEntries(o, entries) == entries
       <==> Listed(o, EntryKeys(entries)) && forall e <- entries :: Fixed(o, e.term)
  {
    if ReencodedEntries(o, entries) == entries {
      FixedKeysListed(o, entries);
      forall e | e in entries
        ensures Fixed(o, e.term)
      {
        var i :| 0 <= i < |entries| && entries[i] == e;
        ReencodedEntry(o, entries, i);
      }
    } else if Listed(o, EntryKeys(entries)) && forall e <- entries :: Fixed(o, e.term) {
      ListedEntriesFixed(o, entries);
    }
  }

  lemma SetCanonicalIff(o: Orders, elts: seq<WireTerm>, eltsTy: WireType)
    requires Listing(o) && InRange(WSet(elts, eltsTy)) && DecodeAll(elts).Ok?
    requires (forall t <- elts :: Fixed(o, t)) <==> (forall t <- elts :: Canonical(o, t))
    ensures Normalize(o, WSet(elts, eltsTy)) == WSet(elts, eltsTy) <==> Canonical(o, WSet(elts, eltsTy))
  {
    TypeCanonicalIff(o, eltsTy);
    SetFixedIff(o, elts, eltsTy);
  }

  lemma ApplicationCanonicalIff(o: Orders, op: WireOp, args: seq<WireTerm>, retTy: WireType)
    requires Listing(o) && Decode(WApp(op, args, retTy)).Ok?
    requires (forall t <- args :: Fixed(o, t)) <==> (forall t <- args :: Canonical(o, t))
    ensures Normalize(o, WApp(op, args, retTy)) == WApp(op, args, retTy) <==> Canonical(o, WApp(op, args, retTy))
  {
    OpCanonicalIff(o, op);
    TypeCanonicalIff(o, retTy);
    ListFixedIff(o, args, Decode(WApp(op, args, retTy)).value);
  }

  /** Exactly the canonical terms are left alone: what normalizing changes is the order and repetition
      of set elements, of record entries and of record-type fields, and numerals. */
  lemma {:induction false} CanonicalIff(o: Orders, t: WireTerm)
    requires Listing(o) && InRange(t) && Decode(t).Ok?
    ensures Normalize(o, t) == t <==> Canonical(o, t)
    decreases t
  {
    match t
    case WPrim(p) => NormalizePrim(p);
    case WVar(_, ty) => TypeCanonicalIff(o, ty);
    case WNone(ty) => TypeCanonicalIff(o, ty);
    case WSome(inner) => CanonicalIff(o, inner);
    case WSet(elts, eltsTy) =>
      ListCanonicalIff(o, elts);
      SetCanonicalIff(o, elts, eltsTy);
    case WRecord(entries) =>
      EntriesCanonicalIff(o, entries);
      NormalRecord(o, entries);
      RecordFixedIff(o, entries);
    case WApp(op, args, retTy) =>
      ListCanonicalIff(o, args);
      ApplicationCanonicalIff(o, op, args, retTy);
  }

  lemma {:induction false} ListCanonicalIff(o: Orders, ts: seq<WireTerm>)
    requires Listing(o) && (forall t <- ts :: InRange(t)) && DecodeAll(ts).Ok?
    ensures (forall t <- ts :: Fixed(o, t)) <==> (forall t <- ts :: Canonical(o, t))
    decreases ts
  {
    forall t | t in ts
      ensures Fixed(o, t) <==> Canonical(o, t)
    {
      var i :| 0 <= i < |ts| && ts[i] == t;
      DecodedAt(ts, i);
      CanonicalIff(o, t);
    }
  }

  lemma {:induction false} EntriesCanonicalIff(o: Orders, entries: seq<WireEntry>)
    requires Listing(o) && (forall e <- entries :: InRange(e.term)) && DecodeEntries(entries).Ok?
    ensures (forall e <- entries :: Fixed(o, e.term)) <==> (forall e <- entries :: Canonical(o, e.term))
    decreases entries
  {
    forall e | e in entries
      ensures Fixed(o, e.term) <==> Canonical(o, e.term)
    {
      EntryDecodes(entries, e);
      CanonicalIff(o, e.term);
    }
  }

  lemma {:induction false} EntryDecodes(entries: seq<WireEntry>, e: WireEntry)
    requires DecodeEntries(entries).Ok? && e in entries
    ensures Decode(e.term).Ok?
    decreases entries
  {
    if e != entries[0] { EntryDecodes(entries[1..], e); }
  }
}

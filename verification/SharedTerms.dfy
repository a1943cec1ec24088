/** Terms with shared subterms factored out into definitions, and how they are rebuilt.

    `Unfold` replaces every reference by the unfolded body of an earlier definition and yields an
    ordinary wire term, which may be exponentially larger.  Rebuilding through the table of resolved
    definitions gives exactly the conversion of that term. */
module SharedTerms {
  import opened Wrappers
  import opened Terms

  datatype Body =
    | Ref(id: string)
    | BPrim(p: WirePrim)
    | BVar(id: string, ty: WireType)
    | BNone(ty: WireType)
    | BSome(inner: Body)
    | BSet(elts: seq<Body>, eltsTy: WireType)
    | BRecord(entries: seq<BodyEntry>)
    | BApp(op: WireOp, args: seq<Body>, retTy: WireType)

  datatype BodyEntry = BodyEntry(key: string, body: Body)

  datatype Definition = Definition(id: string, body: Body)

  datatype CseTerm = CseTerm(defs: seq<Definition>, root: Body)

  datatype CseError = UnknownId(id: string) | DuplicateId(id: string) | Conversion(error: ConversionError)

  function Converted<T>(r: Result<T, ConversionError>): Result<T, CseError> {
    match r
    case Ok(v) => Ok(v)
    case Err(e) => Err(Conversion(e))
  }

  type ResolvedTable = map<string, Term>

  // ----- rebuilding through the table -----

  /** `TermDefBody::resolve` */
  function Resolve(b: Body, resolved: ResolvedTable): Result<Term, CseError>
    decreases b
  {
    match b
    case Ref(id) => if id in resolved then Ok(resolved[id]) else Err(UnknownId(id))
    case BPrim(p) =>
      var p' :- Converted(DecodePrim(p));
      Ok(TPrim(p'))
    case BVar(id, ty) => Ok(TVar(id, DecodeType(ty)))
    case BNone(ty) => Ok(TNone(DecodeType(ty)))
    case BSome(inner) =>
      var inner' :- Resolve(inner, resolved);
      Ok(TSome(inner'))
    case BSet(elts, eltsTy) =>
      var elts' :- ResolveAll(elts, resolved);
      Ok(TSet(SetOf(elts'), DecodeType(eltsTy)))
    case BRecord(entries) =>
      var entries' :- ResolveEntries(entries, resolved);
      Ok(TRecord(entries'))
    case BApp(op, args, retTy) =>
      var args' :- ResolveAll(args, resolved);
      var op' :- Converted(DecodeOp(op));
      Ok(TApp(op', args', DecodeType(retTy)))
  }

  function ResolveAll(bs: seq<Body>, resolved: ResolvedTable): Result<seq<Term>, CseError>
    decreases bs
  {
    if bs == [] then Ok([])
    else
      var first :- Resolve(bs[0], resolved);
      var rest :- ResolveAll(bs[1..], resolved);
      Ok([first] + rest)
  }

  function ResolveEntries(entries: seq<BodyEntry>, resolved: ResolvedTable): Result<map<string, Term>, CseError>
    decreases entries
  {
    if entries == [] then Ok(map[])
    else
      var first :- Resolve(entries[0].body, resolved);
      var rest :- ResolveEntries(entries[1..], resolved);
      Ok(map[entries[0].key := first] + rest)
  }

  // ----- substitution -----

  function FindDefinition(defs: seq<Definition>, n: nat, id: string): (k: Option<nat>)
    requires n <= |defs|
    ensures k.Some? ==> k.value < n && defs[k.value].id == id
    ensures k.None? ==> forall i | 0 <= i < n :: defs[i].id != id
  {
    if n == 0 then None
    else if defs[n - 1].id == id then Some(n - 1)
    else FindDefinition(defs, n - 1, id)
  }

  /** The body with every reference replaced, where references may only go to the first `n` definitions */
  function Unfold(defs: seq<Definition>, n: nat, b: Body): Option<WireTerm>
    requires n <= |defs|
    decreases n, b
  {
    match b
    case Ref(id) => (
      match FindDefinition(defs, n, id)
      case None => None
      case Some(k) => Unfold(defs, k, defs[k].body)
    )
    case BPrim(p) => Some(WPrim(p))
    case BVar(id, ty) => Some(WVar(id, ty))
    case BNone(ty) => Some(WNone(ty))
    case BSome(inner) => (
      match Unfold(defs, n, inner)
      case None => None
      case Some(t) => Some(WSome(t))
    )
    case BSet(elts, eltsTy) => (
      match UnfoldAll(defs, n, elts)
      case None => None
      case Some(ts) => Some(WSet(ts, eltsTy))
    )
    case BRecord(entries) => (
      match UnfoldEntries(defs, n, entries)
      case None => None
      case Some(es) => Some(WRecord(es))
    )
    case BApp(op, args, retTy) => (
      match UnfoldAll(defs, n, args)
      case None => None
      case Some(ts) => Some(WApp(op, ts, retTy))
    )
  }

  function UnfoldAll(defs: seq<Definition>, n: nat, bs: seq<Body>): Option<seq<WireTerm>>
    requires n <= |defs|
    decreases n, bs
  {
    if bs == [] then Some([])
    else
      match (Unfold(defs, n, bs[0]), UnfoldAll(defs, n, bs[1..]))
      case (Some(t), Some(ts)) => Some([t] + ts)
      case _ => None
  }

  function UnfoldEntries(defs: seq<Definition>, n: nat, entries: seq<BodyEntry>): Option<seq<WireEntry>>
    requires n <= |defs|
    decreases n, entries
  {
    if entries == [] then Some([])
    else
      match (Unfold(defs, n, entries[0].body), UnfoldEntries(defs, n, entries[1..]))
      case (Some(t), Some(es)) => Some([WireEntry(entries[0].key, t)] + es)
      case _ => None
  }

  // ----- the two agree -----

  /** The unfolded body, converted */
  ghost function Meaning(defs: seq<Definition>, n: nat, b: Body): Option<Term>
    requires n <= |defs|
  {
    match Unfold(defs, n, b)
    case None => None
    case Some(t) => if Decode(t).Ok? then Some(Decode(t).value) else None
  }

  ghost function Success<T, E>(r: Result<T, E>): Option<T> {
    if r.Ok? then Some(r.value) else None
  }

  ghost predicate DistinctIds(defs: seq<Definition>, n: nat)
    requires n <= |defs|
  {
    forall i, j | 0 <= i < j < n :: defs[i].id != defs[j].id
  }

  /** The table holds the first `n` definitions, each with its meaning. */
  ghost predicate IsTable(defs: seq<Definition>, n: nat, resolved: ResolvedTable)
    requires n <= |defs|
  {
    && (forall id :: id in resolved <==> FindDefinition(defs, n, id).Some?)
    && (forall id :: id in resolved ==>
          var k := FindDefinition(defs, n, id).value;
          Meaning(defs, k, defs[k].body) == Some(resolved[id]))
  }

  lemma {:induction false} ResolveIsMeaning(defs: seq<Definition>, n: nat, b: Body, resolved: ResolvedTable)
    requires n <= |defs| && IsTable(defs, n, resolved)
    ensures Success(Resolve(b, resolved)) == Meaning(defs, n, b)
    decreases b
  {
    match b
    case BSome(inner) => ResolveIsMeaning(defs, n, inner, resolved);
    case BSet(elts, _) => ResolveAllIsMeaning(defs, n, elts, resolved);
    case BRecord(entries) => ResolveEntriesIsMeaning(defs, n, entries, resolved);
    case BApp(op, args, retTy) =>
      ResolveAllIsMeaning(defs, n, args, resolved);
      ApplicationIsMeaning(defs, n, op, args, retTy, resolved);
    case _ =>
  }

  /** An application converts when its operator and its arguments do, in either order. */
  lemma {:induction false} ApplicationIsMeaning(
      defs: seq<Definition>, n: nat, op: WireOp, args: seq<Body>, retTy: WireType, resolved: ResolvedTable)
    requires n <= |defs|
    requires Success(ResolveAll(args, resolved))
          == if UnfoldAll(defs, n, args).None? then None else Success(DecodeAll(UnfoldAll(defs, n, args).value))
    ensures Success(Resolve(BApp(op, args, retTy), resolved)) == Meaning(defs, n, BApp(op, args, retTy))
  {
  }

  lemma {:induction false} ResolveAllIsMeaning(defs: seq<Definition>, n: nat, bs: seq<Body>, resolved: ResolvedTable)
    requires n <= |defs| && IsTable(defs, n, resolved)
    ensures Success(ResolveAll(bs, resolved))
         == if UnfoldAll(defs, n, bs).None? then None else Success(DecodeAll(UnfoldAll(defs, n, bs).value))
    decreases bs
  {
    if bs != [] {
      ResolveIsMeaning(defs, n, bs[0], resolved);
      ResolveAllIsMeaning(defs, n, bs[1..], resolved);
      if UnfoldAll(defs, n, bs).Some? {
        assert UnfoldAll(defs, n, bs).value[1..] == UnfoldAll(defs, n, bs[1..]).value;
      }
    }
  }

  lemma {:induction false} ResolveEntriesIsMeaning(
      defs: seq<Definition>, n: nat, entries: seq<BodyEntry>, resolved: ResolvedTable)
    requires n <= |defs| && IsTable(defs, n, resolved)
    ensures Success(ResolveEntries(entries, resolved))
         == if UnfoldEntries(defs, n, entries).None? then None
            else Success(DecodeEntries(UnfoldEntries(defs, n, entries).value))
    decreases entries
  {
    if entries != [] {
      ResolveIsMeaning(defs, n, entries[0].body, resolved);
      ResolveEntriesIsMeaning(defs, n, entries[1..], resolved);
      if UnfoldEntries(defs, n, entries).Some? {
        assert UnfoldEntries(defs, n, entries).value[1..] == UnfoldEntries(defs, n, entries[1..]).value;
      }
    }
  }

  ghost predicate Convertible(defs: seq<Definition>, n: nat)
    requires n <= |defs|
  {
    forall k | 0 <= k < n :: Meaning(defs, k, defs[k].body).Some?
  }

  /** Ids are distinct, every reference goes to an earlier definition, and every definition and the
      root convert, used or not. */
  ghost predicate WellFormed(c: CseTerm) {
    && DistinctIds(c.defs, |c.defs|)
    && Convertible(c.defs, |c.defs|)
    && Meaning(c.defs, |c.defs|, c.root).Some?
  }

  lemma TableGrows(defs: seq<Definition>, n: nat, resolved: ResolvedTable, term: Term)
    requires n < |defs| && IsTable(defs, n, resolved) && DistinctIds(defs, n)
    requires Meaning(defs, n, defs[n].body) == Some(term)
    ensures defs[n].id !in resolved ==>
              DistinctIds(defs, n + 1) && IsTable(defs, n + 1, resolved[defs[n].id := term])
    ensures defs[n].id in resolved ==> !DistinctIds(defs, |defs|)
  {
  }

  /** The first `n` definitions have been resolved. */
  ghost predicate Progress(defs: seq<Definition>, n: nat, resolved: ResolvedTable)
    requires n <= |defs|
  {
    DistinctIds(defs, n) && IsTable(defs, n, resolved) && Convertible(defs, n)
  }

  lemma Step(defs: seq<Definition>, n: nat, resolved: ResolvedTable, r: Result<Term, CseError>)
    requires n < |defs| && Progress(defs, n, resolved) && r == Resolve(defs[n].body, resolved)
    ensures r.Err? ==> !Convertible(defs, |defs|)
    ensures r.Ok? && defs[n].id in resolved ==> !DistinctIds(defs, |defs|)
    ensures r.Ok? && defs[n].id !in resolved ==> Progress(defs, n + 1, resolved[defs[n].id := r.value])
  {
    ResolveIsMeaning(defs, n, defs[n].body, resolved);
    if r.Ok? { TableGrows(defs, n, resolved, r.value); }
  }

  lemma Finish(c: CseTerm, resolved: ResolvedTable, r: Result<Term, CseError>)
    requires Progress(c.defs, |c.defs|, resolved) && r == Resolve(c.root, resolved)
    ensures r.Ok? <==> WellFormed(c)
    ensures r.Ok? ==> Meaning(c.defs, |c.defs|, c.root) == Some(r.value)
  {
    ResolveIsMeaning(c.defs, |c.defs|, c.root, resolved);
  }

  /** `TryFrom<CseTerm>` */
  method Rebuild(c: CseTerm) returns (r: Result<Term, CseError>)
    ensures r.Ok? <==> WellFormed(c)
    ensures r.Ok? ==> var t := Unfold(c.defs, |c.defs|, c.root);
                      t.Some? && Decode(t.value) == Ok(r.value)
  {
    var resolved: ResolvedTable := map[];
    for n := 0 to |c.defs|
      invariant Progress(c.defs, n, resolved)
    {
      r := Resolve(c.defs[n].body, resolved);
      Step(c.defs, n, resolved, r);
      if r.Err? {
        return;
      }
      if c.defs[n].id in resolved {
        return Err(DuplicateId(c.defs[n].id));
      }
      resolved := resolved[c.defs[n].id := r.value];
    }
    r := Resolve(c.root, resolved);
    Finish(c, resolved, r);
  }
}

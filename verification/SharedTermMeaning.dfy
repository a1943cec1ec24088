/** What shared terms mean: every definition is evaluated once, in order, and rebuilding keeps the value. */
module SharedTermMeaning {
  import opened Wrappers
  import opened Terms
  import opened SharedTerms
  import opened TermMeaning

  type Environment<V> = map<string, V>

  function BodyKeys(entries: seq<BodyEntry>): seq<string> {
    seq(|entries|, i requires 0 <= i < |entries| => entries[i].key)
  }

  /** The value of a body, given those of the ids it may refer to */
  ghost function EvalBody<V(!new)>(I: Interpretation<V>, env: Environment<V>, b: Body): Option<V>
    decreases b
  {
    match b
    case Ref(id) => if id in env then Some(env[id]) else None
    case BPrim(p) =>
      var l :- WireLiteral(p);
      Some(I.literal(l))
    case BVar(id, ty) => Some(I.variable(id, WireSort(ty)))
    case BNone(ty) => Some(I.none(WireSort(ty)))
    case BSome(inner) =>
      var v :- EvalBody(I, env, inner);
      Some(I.some(v))
    case BSet(elts, eltsTy) =>
      var vs :- EvalBodies(I, env, elts);
      Some(I.collect((set v | v in vs), WireSort(eltsTy)))
    case BRecord(entries) =>
      var vs :- EvalBodyEntries(I, env, entries);
      Some(I.record(LastEntry(BodyKeys(entries), vs)))
    case BApp(op, args, retTy) =>
      var symbol :- WireSymbol(op);
      var vs :- EvalBodies(I, env, args);
      Some(I.apply(symbol, vs, WireSort(retTy)))
  }

  ghost function EvalBodies<V(!new)>(I: Interpretation<V>, env: Environment<V>, bs: seq<Body>): (r: Option<seq<V>>)
    ensures r.Some? ==> |r.value| == |bs|
    decreases bs
  {
    if bs == [] then Some([])
    else
      var v :- EvalBody(I, env, bs[0]);
      var vs :- EvalBodies(I, env, bs[1..]);
      Some([v] + vs)
  }

  ghost function EvalBodyEntries<V(!new)>(I: Interpretation<V>, env: Environment<V>, entries: seq<BodyEntry>)
    : (r: Option<seq<V>>)
    ensures r.Some? ==> |r.value| == |entries|
    decreases entries
  {
    if entries == [] then Some([])
    else
      var v :- EvalBody(I, env, entries[0].body);
      var vs :- EvalBodyEntries(I, env, entries[1..]);
      Some([v] + vs)
  }

  /** The values of the first `n` definitions, if their ids differ and each can be evaluated */
  ghost function EvalDefinitions<V(!new)>(I: Interpretation<V>, defs: seq<Definition>, n: nat): Option<Environment<V>>
    requires n <= |defs|
  {
    if n == 0 then Some(map[])
    else
      var env :- EvalDefinitions(I, defs, n - 1);
      var v :- EvalBody(I, env, defs[n - 1].body);
      if defs[n - 1].id in env then None else Some(env[defs[n - 1].id := v])
  }

  ghost function EvalShared<V(!new)>(I: Interpretation<V>, c: CseTerm): Option<V> {
    var env :- EvalDefinitions(I, c.defs, |c.defs|);
    EvalBody(I, env, c.root)
  }

  // ----- sharing keeps the value -----

  ghost function UnfoldedValue<V(!new)>(I: Interpretation<V>, defs: seq<Definition>, n: nat, b: Body): Option<V>
    requires n <= |defs|
  {
    var t :- Unfold(defs, n, b);
    EvalWire(I, t)
  }

  /** The environment has the first `n` definitions, each with the value of its unfolded body. */
  ghost predicate IsEnvironment<V(!new)>(I: Interpretation<V>, defs: seq<Definition>, n: nat, env: Environment<V>)
    requires n <= |defs|
  {
    && (forall id :: id in env <==> FindDefinition(defs, n, id).Some?)
    && (forall id :: id in env ==>
          var k := FindDefinition(defs, n, id).value;
          UnfoldedValue(I, defs, k, defs[k].body) == Some(env[id]))
  }

  lemma {:induction false} BodyIsUnfolded<V(!new)>(
      I: Interpretation<V>, defs: seq<Definition>, n: nat, b: Body, env: Environment<V>)
    requires n <= |defs| && IsEnvironment(I, defs, n, env)
    ensures EvalBody(I, env, b) == UnfoldedValue(I, defs, n, b)
    decreases b
  {
    match b
    case BSome(inner) => BodyIsUnfolded(I, defs, n, inner, env);
    case BSet(elts, _) => BodiesAreUnfolded(I, defs, n, elts, env);
    case BRecord(entries) =>
      EntriesAreUnfolded(I, defs, n, entries, env);
      if UnfoldEntries(defs, n, entries).Some? { UnfoldedKeys(defs, n, entries); }
    case BApp(_, args, _) => BodiesAreUnfolded(I, defs, n, args, env);
    case _ =>
  }

  ghost function UnfoldedValues<V(!new)>(I: Interpretation<V>, defs: seq<Definition>, n: nat, bs: seq<Body>)
    : Option<seq<V>>
    requires n <= |defs|
  {
    var ts :- UnfoldAll(defs, n, bs);
    EvalWires(I, ts)
  }

  lemma {:induction false} BodiesAreUnfolded<V(!new)>(
      I: Interpretation<V>, defs: seq<Definition>, n: nat, bs: seq<Body>, env: Environment<V>)
    requires n <= |defs| && IsEnvironment(I, defs, n, env)
    ensures EvalBodies(I, env, bs) == UnfoldedValues(I, defs, n, bs)
    decreases bs
  {
    if bs != [] {
      BodyIsUnfolded(I, defs, n, bs[0], env);
      BodiesAreUnfolded(I, defs, n, bs[1..], env);
      if UnfoldAll(defs, n, bs).Some? {
        assert UnfoldAll(defs, n, bs).value[1..] == UnfoldAll(defs, n, bs[1..]).value;
      }
    }
  }

  lemma {:induction false} EntriesAreUnfolded<V(!new)>(
      I: Interpretation<V>, defs: seq<Definition>, n: nat, entries: seq<BodyEntry>, env: Environment<V>)
    requires n <= |defs| && IsEnvironment(I, defs, n, env)
    ensures EvalBodyEntries(I, env, entries) == UnfoldedEntryValues(I, defs, n, entries)
    decreases entries
  {
    if entries != [] {
      BodyIsUnfolded(I, defs, n, entries[0].body, env);
      EntriesAreUnfolded(I, defs, n, entries[1..], env);
      if UnfoldEntries(defs, n, entries).Some? {
        assert UnfoldEntries(defs, n, entries).value[1..] == UnfoldEntries(defs, n, entries[1..]).value;
      }
    }
  }

  ghost function UnfoldedEntryValues<V(!new)>(
      I: Interpretation<V>, defs: seq<Definition>, n: nat, entries: seq<BodyEntry>): Option<seq<V>>
    requires n <= |defs|
  {
    var es :- UnfoldEntries(defs, n, entries);
    EvalWireEntries(I, es)
  }

  lemma {:induction false} UnfoldedKeys(defs: seq<Definition>, n: nat, entries: seq<BodyEntry>)
    requires n <= |defs| && UnfoldEntries(defs, n, entries).Some?
    ensures Keys(UnfoldEntries(defs, n, entries).value) == BodyKeys(entries)
  {
    if entries != [] {
      UnfoldedKeys(defs, n, entries[1..]);
      var es := UnfoldEntries(defs, n, entries).value;
      assert es[1..] == UnfoldEntries(defs, n, entries[1..]).value;
      assert Keys(es) == [entries[0].key] + Keys(es[1..]);
      assert BodyKeys(entries) == [entries[0].key] + BodyKeys(entries[1..]);
    }
  }

  lemma EnvironmentGrows<V(!new)>(I: Interpretation<V>, defs: seq<Definition>, n: nat, env: Environment<V>, v: V)
    requires n < |defs| && IsEnvironment(I, defs, n, env) && UnfoldedValue(I, defs, n, defs[n].body) == Some(v)
    ensures defs[n].id !in env ==> IsEnvironment(I, defs, n + 1, env[defs[n].id := v])
  {
  }

  lemma DistinctNext(defs: seq<Definition>, n: nat)
    requires n < |defs| && DistinctIds(defs, n)
    ensures DistinctIds(defs, n + 1) <==> FindDefinition(defs, n, defs[n].id).None?
  {
  }

  lemma ConvertibleNext(defs: seq<Definition>, n: nat)
    requires n < |defs|
    ensures Convertible(defs, n + 1) <==> Convertible(defs, n) && Meaning(defs, n, defs[n].body).Some?
  {
  }

  ghost predicate Evaluated<V(!new)>(I: Interpretation<V>, defs: seq<Definition>, n: nat, env: Option<Environment<V>>)
    requires n <= |defs|
  {
    && (env.Some? <==> DistinctIds(defs, n) && Convertible(defs, n))
    && (env.Some? ==> IsEnvironment(I, defs, n, env.value))
  }

  lemma EvaluatedNext<V(!new)>(I: Interpretation<V>, defs: seq<Definition>, n: nat, env: Environment<V>)
    requires n < |defs| && Evaluated(I, defs, n, Some(env))
    ensures var v := EvalBody(I, env, defs[n].body);
            Evaluated(I, defs, n + 1,
                      if v.None? || defs[n].id in env then None else Some(env[defs[n].id := v.value]))
  {
    var v := EvalBody(I, env, defs[n].body);
    BodyIsUnfolded(I, defs, n, defs[n].body, env);
    UnfoldedConverts(I, defs, n, defs[n].body);
    DistinctNext(defs, n);
    ConvertibleNext(defs, n);
    if v.Some? { EnvironmentGrows(I, defs, n, env, v.value); }
  }

  /** The definitions up to `n` have an environment exactly when their ids differ and they convert. */
  lemma {:induction false} EnvironmentIff<V(!new)>(I: Interpretation<V>, defs: seq<Definition>, n: nat)
    requires n <= |defs|
    ensures Evaluated(I, defs, n, EvalDefinitions(I, defs, n))
  {
    if n > 0 {
      EnvironmentIff(I, defs, n - 1);
      if EvalDefinitions(I, defs, n - 1).Some? {
        EvaluatedNext(I, defs, n - 1, EvalDefinitions(I, defs, n - 1).value);
      }
    }
  }

  lemma UnfoldedConverts<V(!new)>(I: Interpretation<V>, defs: seq<Definition>, n: nat, b: Body)
    requires n <= |defs|
    ensures UnfoldedValue(I, defs, n, b)
         == match Meaning(defs, n, b) case Some(t) => Some(Eval(I, t)) case None => None
  {
    if Unfold(defs, n, b).Some? { DecodeKeepsValue(I, Unfold(defs, n, b).value); }
  }

  /** For every interpretation, a shared term has a value exactly when it can be rebuilt, and the rebuilt
      term has that value. */
  lemma SharingKeepsValue<V(!new)>(I: Interpretation<V>, c: CseTerm)
    ensures EvalShared(I, c)
         == if WellFormed(c) then Some(Eval(I, Meaning(c.defs, |c.defs|, c.root).value)) else None
  {
    var n := |c.defs|;
    EnvironmentIff(I, c.defs, n);
    if EvalDefinitions(I, c.defs, n).Some? {
      BodyIsUnfolded(I, c.defs, n, c.root, EvalDefinitions(I, c.defs, n).value);
      UnfoldedConverts(I, c.defs, n, c.root);
    }
  }
}

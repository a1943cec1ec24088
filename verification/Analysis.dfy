/** The policy-set analyser: for every request environment, which policies are redundant, shadowed or
    overridden, and which equivalence classes the redundant ones form.

    A call to the symbolic compiler is an exact answer about match sets, the sets of requests of an
    environment that a policy applies to.  The methods follow the analyser's loops; what they compute
    is stated in terms of match sets alone. */
module Analysis {

  type PolicyId = string

  datatype Effect = Permit | Forbid

  datatype Policy = Policy(id: PolicyId, effect: Effect)

  /** A request, as far as the analyser is concerned */
  type Request = int

  /** The requests of each environment, and those that each policy applies to */
  datatype World = World(requests: nat -> iset<Request>, applies: (Policy, nat) -> iset<Request>) {
    ghost function Space(env: nat): iset<Request> {
      requests(env)
    }

    ghost function Match(p: Policy, env: nat): iset<Request> {
      applies(p, env) * requests(env)
    }

    ghost predicate SomeApplies(ps: seq<Policy>, effect: Effect, env: nat, r: Request) {
      exists p :: p in ps && p.effect == effect && r in Match(p, env)
    }

    /** The requests that a policy set allows: some permit applies, and no forbid */
    ghost function Allowed(ps: seq<Policy>, env: nat): iset<Request> {
      iset r | r in Space(env) && SomeApplies(ps, Permit, env, r) && !SomeApplies(ps, Forbid, env, r)
    }
  }

  /** The symbolic compiler's checks, per environment */
  datatype Solver = Solver(
    alwaysMatches: (Policy, nat) -> bool,
    neverMatches: (Policy, nat) -> bool,
    matchesImplies: (Policy, Policy, nat) -> bool,
    alwaysAllows: (seq<Policy>, nat) -> bool,
    alwaysDenies: (seq<Policy>, nat) -> bool,
    implies: (seq<Policy>, seq<Policy>, nat) -> bool)

  ghost predicate ExactMatching(solver: Solver, w: World) {
    && (forall p, env :: solver.alwaysMatches(p, env) <==> w.Match(p, env) == w.Space(env))
    && (forall p, env :: solver.neverMatches(p, env) <==> w.Match(p, env) == iset{})
    && (forall p, q, env :: solver.matchesImplies(p, q, env) <==> w.Match(p, env) <= w.Match(q, env))
  }

  ghost predicate ExactAuthorization(solver: Solver, w: World) {
    && (forall ps, env :: solver.alwaysAllows(ps, env) <==> w.Allowed(ps, env) == w.Space(env))
    && (forall ps, env :: solver.alwaysDenies(ps, env) <==> w.Allowed(ps, env) == iset{})
  }

  ghost predicate ExactImplication(solver: Solver, w: World) {
    forall ps, qs, env :: solver.implies(ps, qs, env) <==> w.Allowed(ps, env) <= w.Allowed(qs, env)
  }

  datatype Vacuity = MatchesAll | MatchesSome | MatchesNone

  datatype Shadowing = Equivalent | Policy1Shadows2 | Policy2Shadows1 | NoShadowing

  datatype Overriding = Overrides | NoOverriding

  // ----- what the results mean -----

  /** An empty request space counts as matched by everything, since that check comes first. */
  ghost function VacuityOf(matched: iset<Request>, space: iset<Request>): Vacuity {
    if matched == space then MatchesAll else if matched == iset{} then MatchesNone else MatchesSome
  }

  /** The same requests match, and some do; or there are no requests at all. */
  ghost predicate Redundant(w: World, p: Policy, q: Policy, env: nat) {
    w.Match(p, env) == w.Match(q, env) && (w.Match(p, env) != iset{} || w.Space(env) == iset{})
  }

  /** `q` matches everything that `p` matches and more, and `p` matches something. */
  ghost predicate ShadowedBy(w: World, p: Policy, q: Policy, env: nat) {
    w.Match(p, env) < w.Match(q, env) && w.Match(p, env) != iset{}
  }

  ghost predicate NonVacuous(w: World, p: Policy, env: nat) {
    w.Match(p, env) != iset{} && w.Match(p, env) != w.Space(env)
  }

  /** The permit `p` never takes effect where the forbid `q` is in force, and neither is vacuous. */
  ghost predicate OverriddenBy(w: World, p: Policy, q: Policy, env: nat) {
    NonVacuous(w, p, env) && NonVacuous(w, q, env) && w.Match(p, env) <= w.Match(q, env)
  }

  ghost predicate IsShadowing(w: World, p: Policy, q: Policy, env: nat, result: Shadowing) {
    match result
    case Equivalent => Redundant(w, p, q, env)
    case Policy1Shadows2 => ShadowedBy(w, q, p, env)
    case Policy2Shadows1 => ShadowedBy(w, p, q, env)
    case NoShadowing => !Redundant(w, p, q, env) && !ShadowedBy(w, q, p, env) && !ShadowedBy(w, p, q, env)
  }

  ghost predicate IsVacuity(w: World, p: Policy, envs: nat, results: seq<Vacuity>) {
    |results| == envs && forall env | 0 <= env < envs :: results[env] == VacuityOf(w.Match(p, env), w.Space(env))
  }

  ghost predicate IsSetVacuity(w: World, ps: seq<Policy>, envs: nat, results: seq<Vacuity>) {
    |results| == envs && forall env | 0 <= env < envs :: results[env] == VacuityOf(w.Allowed(ps, env), w.Space(env))
  }

  /** Exactly one of the four results holds of a pair. */
  lemma ShadowingIsUnique(w: World, p: Policy, q: Policy, env: nat, r1: Shadowing, r2: Shadowing)
    requires IsShadowing(w, p, q, env, r1) && IsShadowing(w, p, q, env, r2)
    ensures r1 == r2
  {
  }

  lemma AllowedByOne(w: World, p: Policy, env: nat)
    requires p.effect == Permit
    ensures w.Allowed([p], env) == w.Match(p, env)
  {
  }

  // ----- the checks per policy and per pair -----

  method PolicyVacuous(solver: Solver, ghost w: World, p: Policy, envs: nat) returns (vr: seq<Vacuity>)
    requires ExactMatching(solver, w)
    ensures IsVacuity(w, p, envs, vr)
  {
    vr := [];
    for env := 0 to envs
      invariant IsVacuity(w, p, env, vr)
    {
      if solver.alwaysMatches(p, env) {
        vr := vr + [MatchesAll];
      } else if solver.neverMatches(p, env) {
        vr := vr + [MatchesNone];
      } else {
        vr := vr + [MatchesSome];
      }
    }
  }

  method PolicySetVacuous(solver: Solver, ghost w: World, ps: seq<Policy>, envs: nat) returns (vr: seq<Vacuity>)
    requires ExactAuthorization(solver, w)
    ensures IsSetVacuity(w, ps, envs, vr)
  {
    vr := [];
    for env := 0 to envs
      invariant IsSetVacuity(w, ps, env, vr)
    {
      if solver.alwaysAllows(ps, env) {
        vr := vr + [MatchesAll];
      } else if solver.alwaysDenies(ps, env) {
        vr := vr + [MatchesNone];
      } else {
        vr := vr + [MatchesSome];
      }
    }
  }

  /** What the shortcuts and the two implication checks say about one environment */
  function Compare(v1: Vacuity, v2: Vacuity, implies12: bool, implies21: bool): Shadowing {
    match (v1, v2)
    case (MatchesNone, _) => NoShadowing
    case (_, MatchesNone) => NoShadowing
    case (MatchesAll, MatchesAll) => Equivalent
    case (MatchesAll, MatchesSome) => Policy1Shadows2
    case (MatchesSome, MatchesAll) => Policy2Shadows1
    case (MatchesSome, MatchesSome) =>
      match (implies12, implies21)
      case (true, true) => Equivalent
      case (true, false) => Policy2Shadows1
      case (false, true) => Policy1Shadows2
      case (false, false) => NoShadowing
  }

  /** The vacuity shortcuts lose nothing: they answer as the two implication checks would. */
  lemma ShortcutsExact(w: World, p1: Policy, p2: Policy, env: nat)
    ensures IsShadowing(w, p1, p2, env,
              Compare(VacuityOf(w.Match(p1, env), w.Space(env)), VacuityOf(w.Match(p2, env), w.Space(env)),
                      w.Match(p1, env) <= w.Match(p2, env), w.Match(p2, env) <= w.Match(p1, env)))
  {
  }

  /** `compute_permit_shadowing_result` asks about authorization of one-policy sets. */
  method ComputePermitShadowing(
      solver: Solver, ghost w: World, p1: Policy, v1: seq<Vacuity>, p2: Policy, v2: seq<Vacuity>, envs: nat)
    returns (results: seq<Shadowing>)
    requires ExactImplication(solver, w) && p1.effect == Permit && p2.effect == Permit
    requires IsVacuity(w, p1, envs, v1) && IsVacuity(w, p2, envs, v2)
    ensures |results| == envs && forall env | 0 <= env < envs :: IsShadowing(w, p1, p2, env, results[env])
  {
    results := [];
    for env := 0 to envs
      invariant |results| == env && forall e | 0 <= e < env :: IsShadowing(w, p1, p2, e, results[e])
    {
      ShortcutsExact(w, p1, p2, env);
      if v1[env] == MatchesSome && v2[env] == MatchesSome {
        AllowedByOne(w, p1, env);
        AllowedByOne(w, p2, env);
        var policy1Shadows2 := solver.implies([p1], [p2], env);
        var policy2Shadows1 := solver.implies([p2], [p1], env);
        results := results + [Compare(MatchesSome, MatchesSome, policy1Shadows2, policy2Shadows1)];
      } else {
        results := results + [Compare(v1[env], v2[env], false, false)];
      }
    }
  }

  /** `compute_forbid_shadowing_result` asks about matching. */
  method ComputeForbidShadowing(
      solver: Solver, ghost w: World, p1: Policy, v1: seq<Vacuity>, p2: Policy, v2: seq<Vacuity>, envs: nat)
    returns (results: seq<Shadowing>)
    requires ExactMatching(solver, w)
    requires IsVacuity(w, p1, envs, v1) && IsVacuity(w, p2, envs, v2)
    ensures |results| == envs && forall env | 0 <= env < envs :: IsShadowing(w, p1, p2, env, results[env])
  {
    results := [];
    for env := 0 to envs
      invariant |results| == env && forall e | 0 <= e < env :: IsShadowing(w, p1, p2, e, results[e])
    {
      ShortcutsExact(w, p1, p2, env);
      if v1[env] == MatchesSome && v2[env] == MatchesSome {
        var policy1Shadows2 := solver.matchesImplies(p1, p2, env);
        var policy2Shadows1 := solver.matchesImplies(p2, p1, env);
        results := results + [Compare(MatchesSome, MatchesSome, policy1Shadows2, policy2Shadows1)];
      } else {
        results := results + [Compare(v1[env], v2[env], false, false)];
      }
    }
  }

  method ComputeOverrides(
      solver: Solver, ghost w: World, forbid: Policy, forbidV: seq<Vacuity>, permit: Policy, permitV: seq<Vacuity>,
      envs: nat)
    returns (results: seq<Overriding>)
    requires ExactMatching(solver, w)
    requires IsVacuity(w, forbid, envs, forbidV) && IsVacuity(w, permit, envs, permitV)
    ensures |results| == envs
    ensures forall env | 0 <= env < envs :: results[env] == Overrides <==> OverriddenBy(w, permit, forbid, env)
  {
    results := [];
    for env := 0 to envs
      invariant |results| == env
      invariant forall e | 0 <= e < env :: results[e] == Overrides <==> OverriddenBy(w, permit, forbid, e)
    {
      if forbidV[env] != MatchesSome || permitV[env] != MatchesSome {
        results := results + [NoOverriding];
      } else if solver.matchesImplies(permit, forbid, env) {
        results := results + [Overrides];
      } else {
        results := results + [NoOverriding];
      }
    }
  }

  // ----- the tables of findings -----

  /** For each policy, per environment, the policies it was found related to */
  type Table = map<PolicyId, seq<set<PolicyId>>>

  /** The ordered pairs of ids compared so far */
  type Pairs = set<(PolicyId, PolicyId)>

  datatype Kind = Redundancy | PermitShadowing | Override | ForbidShadowing

  ghost predicate DistinctIds(ps: seq<Policy>) {
    forall a, b | 0 <= a < b < |ps| :: ps[a].id != ps[b].id
  }

  ghost function Ids(ps: seq<Policy>): set<PolicyId> {
    set a | 0 <= a < |ps| :: ps[a].id
  }

  ghost function AllPairs(ps: seq<Policy>): Pairs {
    set p, q | p in Ids(ps) && q in Ids(ps) && p != q :: (p, q)
  }

  ghost function Lookup(ps: seq<Policy>, id: PolicyId): Policy
    requires id in Ids(ps)
  {
    var a :| 0 <= a < |ps| && ps[a].id == id;
    ps[a]
  }

  lemma LookupAt(ps: seq<Policy>, a: nat)
    requires DistinctIds(ps) && a < |ps|
    ensures ps[a].id in Ids(ps) && Lookup(ps, ps[a].id) == ps[a]
  {
  }

  /** Which pairs of effects a table is about */
  ghost predicate InScope(kind: Kind, p: Policy, q: Policy) {
    match kind
    case Redundancy => p.effect == q.effect
    case PermitShadowing => p.effect == Permit && q.effect == Permit
    case Override => p.effect == Permit && q.effect == Forbid
    case ForbidShadowing => p.effect == Forbid && q.effect == Forbid
  }

  ghost predicate Related(kind: Kind, w: World, p: Policy, q: Policy, env: nat) {
    match kind
    case Redundancy => Redundant(w, p, q, env)
    case PermitShadowing => ShadowedBy(w, p, q, env)
    case Override => OverriddenBy(w, p, q, env)
    case ForbidShadowing => ShadowedBy(w, p, q, env)
  }

  ghost predicate Compared(kind: Kind, ps: seq<Policy>, done: Pairs, p: PolicyId, q: PolicyId) {
    (p, q) in done && p in Ids(ps) && q in Ids(ps) && InScope(kind, Lookup(ps, p), Lookup(ps, q))
  }

  /** The table holds its relation for the pairs compared so far, and has an entry for every policy
      that was compared with one in scope. */
  ghost predicate Tracks(table: Table, kind: Kind, w: World, ps: seq<Policy>, done: Pairs, envs: nat) {
    && (forall p :: p in table <==> exists q :: Compared(kind, ps, done, p, q))
    && (forall p :: p in table ==> |table[p]| == envs)
    && (forall p, env, q | p in table && 0 <= env < envs ::
          q in table[p][env] <==> Found(kind, w, ps, done, p, q, env))
  }

  ghost predicate Found(kind: Kind, w: World, ps: seq<Policy>, done: Pairs, p: PolicyId, q: PolicyId, env: nat) {
    Compared(kind, ps, done, p, q) && Related(kind, w, Lookup(ps, p), Lookup(ps, q), env)
  }

  lemma TracksMore(
      table: Table, kind: Kind, w: World, ps: seq<Policy>, done: Pairs, envs: nat, p: PolicyId, q: PolicyId)
    requires Tracks(table, kind, w, ps, done, envs) && p in Ids(ps) && q in Ids(ps)
    requires !InScope(kind, Lookup(ps, p), Lookup(ps, q))
    ensures Tracks(table, kind, w, ps, done + {(p, q)}, envs)
  {
    forall x, y
      ensures Compared(kind, ps, done + {(p, q)}, x, y) <==> Compared(kind, ps, done, x, y)
    {
    }
    forall x, env: nat, y
      ensures Found(kind, w, ps, done + {(p, q)}, x, y, env) <==> Found(kind, w, ps, done, x, y, env)
    {
    }
  }

  /** `update_findings` */
  method UpdateFindings<T(==)>(pid1: PolicyId, pid2: PolicyId, results: seq<T>, findings: Table, filter: T,
                               ghost kind: Kind, ghost w: World, ghost ps: seq<Policy>, ghost done: Pairs)
    returns (updated: Table)
    requires Tracks(findings, kind, w, ps, done, |results|)
    requires pid1 in Ids(ps) && pid2 in Ids(ps) && InScope(kind, Lookup(ps, pid1), Lookup(ps, pid2))
    requires forall env | 0 <= env < |results| ::
               results[env] == filter <==> Related(kind, w, Lookup(ps, pid1), Lookup(ps, pid2), env)
    ensures Tracks(updated, kind, w, ps, done + {(pid1, pid2)}, |results|)
  {
    updated := findings;
    if pid1 !in updated {
      updated := updated[pid1 := seq(|results|, _ => {})];
    }
    ghost var before := updated;
    var row := updated[pid1];
    for ind := 0 to |results|
      invariant |row| == |results|
      invariant forall env, q | 0 <= env < |results| ::
          q in row[env] <==> q in before[pid1][env] || (env < ind && q == pid2 && results[env] == filter)
    {
      if results[ind] == filter {
        row := row[ind := row[ind] + {pid2}];
      }
    }
    updated := updated[pid1 := row];
    ghost var more := done + {(pid1, pid2)};
    forall x, y
      ensures Compared(kind, ps, more, x, y) <==> Compared(kind, ps, done, x, y) || (x == pid1 && y == pid2)
    {
    }
    assert Compared(kind, ps, more, pid1, pid2);
    forall x, env: nat, y | env < |results|
      ensures Found(kind, w, ps, more, x, y, env)
         <==> Found(kind, w, ps, done, x, y, env) || (x == pid1 && y == pid2 && results[env] == filter)
    {
    }
  }

  /** The tables that the pair loop fills */
  class PairFindings {
    var redundant: Table
    var permitShadowed: Table
    var permitOverridden: Table
    var forbidShadowed: Table

    ghost predicate Holds(w: World, ps: seq<Policy>, done: Pairs, envs: nat)
      reads this
    {
      && Tracks(redundant, Redundancy, w, ps, done, envs)
      && Tracks(permitShadowed, PermitShadowing, w, ps, done, envs)
      && Tracks(permitOverridden, Override, w, ps, done, envs)
      && Tracks(forbidShadowed, ForbidShadowing, w, ps, done, envs)
    }

    constructor (ghost w: World, ghost ps: seq<Policy>, ghost envs: nat)
      ensures Holds(w, ps, {}, envs)
    {
      redundant, permitShadowed, permitOverridden, forbidShadowed := map[], map[], map[], map[];
    }

    /** Both directions of a comparison of two policies of the same effect */
    method RecordShadowing(results: seq<Shadowing>, p1: Policy, p2: Policy,
                           ghost w: World, ghost ps: seq<Policy>, ghost done: Pairs)
      requires Holds(w, ps, done, |results|)
      requires p1.id in Ids(ps) && p2.id in Ids(ps) && Lookup(ps, p1.id) == p1 && Lookup(ps, p2.id) == p2
      requires p1.effect == p2.effect
      requires forall env | 0 <= env < |results| :: IsShadowing(w, p1, p2, env, results[env])
      modifies this
      ensures Holds(w, ps, done + {(p1.id, p2.id)} + {(p2.id, p1.id)}, |results|)
    {
      ghost var mid := done + {(p1.id, p2.id)};
      forall env | 0 <= env < |results|
        ensures results[env] == Equivalent <==> Redundant(w, p1, p2, env)
        ensures results[env] == Equivalent <==> Redundant(w, p2, p1, env)
        ensures results[env] == Policy2Shadows1 <==> ShadowedBy(w, p1, p2, env)
        ensures results[env] == Policy1Shadows2 <==> ShadowedBy(w, p2, p1, env)
      {
      }
      redundant := UpdateFindings(p1.id, p2.id, results, redundant, Equivalent, Redundancy, w, ps, done);
      redundant := UpdateFindings(p2.id, p1.id, results, redundant, Equivalent, Redundancy, w, ps, mid);
      if p1.effect == Permit {
        permitShadowed :=
          UpdateFindings(p1.id, p2.id, results, permitShadowed, Policy2Shadows1, PermitShadowing, w, ps, done);
        permitShadowed :=
          UpdateFindings(p2.id, p1.id, results, permitShadowed, Policy1Shadows2, PermitShadowing, w, ps, mid);
        TracksMore(forbidShadowed, ForbidShadowing, w, ps, done, |results|, p1.id, p2.id);
        TracksMore(forbidShadowed, ForbidShadowing, w, ps, mid, |results|, p2.id, p1.id);
      } else {
        forbidShadowed :=
          UpdateFindings(p1.id, p2.id, results, forbidShadowed, Policy2Shadows1, ForbidShadowing, w, ps, done);
        forbidShadowed :=
          UpdateFindings(p2.id, p1.id, results, forbidShadowed, Policy1Shadows2, ForbidShadowing, w, ps, mid);
        TracksMore(permitShadowed, PermitShadowing, w, ps, done, |results|, p1.id, p2.id);
        TracksMore(permitShadowed, PermitShadowing, w, ps, mid, |results|, p2.id, p1.id);
      }
      TracksMore(permitOverridden, Override, w, ps, done, |results|, p1.id, p2.id);
      TracksMore(permitOverridden, Override, w, ps, mid, |results|, p2.id, p1.id);
    }

    method RecordOverriding(results: seq<Overriding>, permit: Policy, forbid: Policy,
                            ghost w: World, ghost ps: seq<Policy>, ghost done: Pairs)
      requires Holds(w, ps, done, |results|)
      requires permit.id in Ids(ps) && forbid.id in Ids(ps)
      requires Lookup(ps, permit.id) == permit && Lookup(ps, forbid.id) == forbid
      requires permit.effect == Permit && forbid.effect == Forbid
      requires forall env | 0 <= env < |results| :: results[env] == Overrides <==> OverriddenBy(w, permit, forbid, env)
      modifies this
      ensures Holds(w, ps, done + {(permit.id, forbid.id)} + {(forbid.id, permit.id)}, |results|)
    {
      ghost var p, f := permit.id, forbid.id;
      ghost var mid := done + {(p, f)};
      permitOverridden :=
        UpdateFindings(permit.id, forbid.id, results, permitOverridden, Overrides, Override, w, ps, done);
      TracksMore(permitOverridden, Override, w, ps, mid, |results|, f, p);
      TracksMore(redundant, Redundancy, w, ps, done, |results|, p, f);
      TracksMore(redundant, Redundancy, w, ps, mid, |results|, f, p);
      TracksMore(permitShadowed, PermitShadowing, w, ps, done, |results|, p, f);
      TracksMore(permitShadowed, PermitShadowing, w, ps, mid, |results|, f, p);
      TracksMore(forbidShadowed, ForbidShadowing, w, ps, done, |results|, p, f);
      TracksMore(forbidShadowed, ForbidShadowing, w, ps, mid, |results|, f, p);
    }

    /** One iteration of the pair loop */
    method ComparePair(solver: Solver, p1: Policy, v1: seq<Vacuity>, p2: Policy, v2: seq<Vacuity>, envs: nat,
                       ghost w: World, ghost ps: seq<Policy>, ghost done: Pairs)
      requires ExactMatching(solver, w) && ExactImplication(solver, w)
      requires Holds(w, ps, done, envs)
      requires p1.id in Ids(ps) && p2.id in Ids(ps) && Lookup(ps, p1.id) == p1 && Lookup(ps, p2.id) == p2
      requires IsVacuity(w, p1, envs, v1) && IsVacuity(w, p2, envs, v2)
      modifies this
      ensures Holds(w, ps, done + {(p1.id, p2.id)} + {(p2.id, p1.id)}, envs)
    {
      match (p1.effect, p2.effect) {
        case (Permit, Permit) =>
          var results := ComputePermitShadowing(solver, w, p1, v1, p2, v2, envs);
          RecordShadowing(results, p1, p2, w, ps, done);
        case (Permit, Forbid) =>
          var results := ComputeOverrides(solver, w, p2, v2, p1, v1, envs);
          RecordOverriding(results, p1, p2, w, ps, done);
        case (Forbid, Permit) =>
          var results := ComputeOverrides(solver, w, p1, v1, p2, v2, envs);
          RecordOverriding(results, p2, p1, w, ps, done);
          assert done + {(p2.id, p1.id)} + {(p1.id, p2.id)} == done + {(p1.id, p2.id)} + {(p2.id, p1.id)};
        case (Forbid, Forbid) =>
          var results := ComputeForbidShadowing(solver, w, p1, v1, p2, v2, envs);
          RecordShadowing(results, p1, p2, w, ps, done);
      }
    }
  }
}

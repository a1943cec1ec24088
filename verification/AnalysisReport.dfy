/** The whole analyser run: vacuity per policy, the loop over pairs, and the report per environment,
    which is exact for any order in which the policies and the maps are visited. */
module AnalysisReport {
  import opened Analysis

  // ----- peeling equivalence classes off a redundancy map -----

  type Related = map<PolicyId, set<PolicyId>>

  ghost predicate Symmetric(m: Related) {
    forall p, q | p in m && q in m[p] :: q in m && p in m[q]
  }

  ghost predicate Transitive(m: Related) {
    forall p, q, r | p in m && q in m[p] && q in m && r in m[q] && r != p :: r in m[p]
  }

  function ClassOf(m: Related, p: PolicyId): set<PolicyId>
    requires p in m
  {
    m[p] + {p}
  }

  /** Every member of a class has that class. */
  ghost predicate Partition(m: Related) {
    forall p, q | p in m && q in ClassOf(m, p) :: q in m && ClassOf(m, q) == ClassOf(m, p)
  }

  lemma RelatedShareClass(m: Related)
    requires Symmetric(m) && Transitive(m)
    ensures Partition(m)
  {
  }

  /** The class of one of these policies, when it has a partner */
  ghost predicate IsClass(m: Related, keys: set<PolicyId>, c: set<PolicyId>) {
    |c| >= 2 && exists p :: p in keys && p in m && ClassOf(m, p) == c
  }

  ghost predicate PairwiseDisjoint(classes: seq<set<PolicyId>>) {
    forall i, j | 0 <= i < j < |classes| :: classes[i] !! classes[j]
  }

  /** The classes of a map, whatever the order in which they were found */
  ghost predicate AreClasses(m: Related, classes: seq<set<PolicyId>>) {
    PairwiseDisjoint(classes) && forall c :: c in classes <==> IsClass(m, m.Keys, c)
  }

  ghost predicate WholeClasses(m: Related, left: set<PolicyId>) {
    left <= m.Keys && forall p :: p in left ==> ClassOf(m, p) <= left
  }

  ghost predicate Collected(m: Related, keys: set<PolicyId>, classes: seq<set<PolicyId>>) {
    forall c :: c in classes <==> IsClass(m, keys, c)
  }

  ghost predicate Apart(classes: seq<set<PolicyId>>, left: set<PolicyId>) {
    PairwiseDisjoint(classes) && forall c :: c in classes ==> c !! left
  }

  /** The classes of the keys that are no longer left have been found. */
  ghost predicate Peeling(m: Related, left: set<PolicyId>, classes: seq<set<PolicyId>>) {
    WholeClasses(m, left) && Collected(m, m.Keys - left, classes) && Apart(classes, left)
  }

  lemma PeelKeys(m: Related, left: set<PolicyId>, pid: PolicyId)
    requires Partition(m) && WholeClasses(m, left) && pid in left
    ensures WholeClasses(m, left - ClassOf(m, pid))
  {
  }

  function Push<T>(s: seq<T>, x: T, when: bool): seq<T> {
    if when then s + [x] else s
  }

  lemma PushedClasses(m: Related, keys: set<PolicyId>, classes: seq<set<PolicyId>>, pid: PolicyId)
    requires Partition(m) && pid in m && Collected(m, keys, classes)
    ensures var c := ClassOf(m, pid);
            Collected(m, keys + c, Push(classes, c, |c| >= 2))
  {
  }

  lemma PushedApart(left: set<PolicyId>, classes: seq<set<PolicyId>>, c: set<PolicyId>, when: bool)
    requires Apart(classes, left) && c <= left
    ensures Apart(Push(classes, c, when), left - c)
  {
    forall i | 0 <= i < |classes|
      ensures classes[i] !! c
    {
      assert classes[i] in classes;
    }
  }

  lemma PeelOne(m: Related, left: set<PolicyId>, classes: seq<set<PolicyId>>, pid: PolicyId)
    requires Partition(m) && Peeling(m, left, classes) && pid in left
    ensures var c := ClassOf(m, pid);
            Peeling(m, left - c, Push(classes, c, |c| >= 2))
  {
    var c := ClassOf(m, pid);
    PeelKeys(m, left, pid);
    PushedClasses(m, m.Keys - left, classes, pid);
    PushedApart(left, classes, c, |c| >= 2);
    assert m.Keys - (left - c) == (m.Keys - left) + c;
  }

  lemma PeelStart(m: Related)
    requires Partition(m)
    ensures Peeling(m, m.Keys, [])
  {
  }

  lemma PeelEnd(m: Related, classes: seq<set<PolicyId>>)
    requires Peeling(m, {}, classes)
    ensures AreClasses(m, classes)
  {
  }

  ghost predicate Rest(m: Related, left: Related) {
    left.Keys <= m.Keys && forall p :: p in left ==> left[p] == m[p]
  }

  /** The `while` loop of `PerSigFindings::new`, which removes the class of whatever entry comes first */
  method PeelClasses(m: Related) returns (classes: seq<set<PolicyId>>)
    requires Partition(m)
    ensures AreClasses(m, classes)
  {
    classes := [];
    var left := m;
    PeelStart(m);
    while left.Keys != {}
      invariant Rest(m, left) && Peeling(m, left.Keys, classes)
      decreases left.Keys
    {
      var pid :| pid in left.Keys;
      var equivClass := left[pid] + {pid};
      PeelOne(m, left.Keys, classes, pid);
      assert (left - equivClass).Keys == left.Keys - equivClass;
      assert pid !in left.Keys - equivClass;
      left := left - equivClass;
      if |equivClass| >= 2 {
        classes := classes + [equivClass];
      }
    }
    PeelEnd(m, classes);
  }

  /** The classes cover exactly the policies with a redundant partner. */
  lemma ClassesCover(m: Related, classes: seq<set<PolicyId>>, p: PolicyId)
    requires Symmetric(m) && Transitive(m) && AreClasses(m, classes)
    ensures (exists c :: c in classes && p in c) <==> p in m && m[p] - {p} != {}
  {
    RelatedShareClass(m);
    if c :| c in classes && p in c {
      InClass(m, c, p);
    }
    if p in m && m[p] - {p} != {} {
      HasClass(m, classes, p);
    }
  }

  lemma InClass(m: Related, c: set<PolicyId>, p: PolicyId)
    requires Partition(m) && IsClass(m, m.Keys, c) && p in c
    ensures p in m && m[p] - {p} != {}
  {
  }

  lemma HasClass(m: Related, classes: seq<set<PolicyId>>, p: PolicyId)
    requires AreClasses(m, classes) && p in m && m[p] - {p} != {}
    ensures ClassOf(m, p) in classes
  {
    var q :| q in m[p] - {p};
    var c := ClassOf(m, p);
    assert c == {p, q} + (c - {p, q});
    assert |{p, q}| == 2;
    assert IsClass(m, m.Keys, c);
  }

  // ----- the report -----

  /** The findings of one request environment */
  datatype PerSig = PerSig(
    env: nat,
    classes: seq<set<PolicyId>>,
    permitShadowed: Related,
    forbidShadowed: Related,
    permitOverridden: Related)

  datatype Report = Report(vacuous: Vacuity, vacuousPolicies: map<PolicyId, Vacuity>, perSig: seq<PerSig>)

  /** `vacuous_finding_from_results` */
  function Overall(results: seq<Vacuity>): Vacuity {
    if forall v <- results :: v == MatchesAll then MatchesAll
    else if forall v <- results :: v == MatchesNone then MatchesNone
    else MatchesSome
  }

  function Column(table: Table, env: nat): Related
    requires forall p :: p in table ==> env < |table[p]|
  {
    map p | p in table :: table[p][env]
  }

  ghost function PairsIn(m: Related): Pairs {
    set p, q | p in m && q in m[p] :: (p, q)
  }

  /** The number of pairs, summed entry by entry in any order */
  method CountFindings(m: Related) returns (n: nat)
    ensures n == |PairsIn(m)|
  {
    n := 0;
    var left := m.Keys;
    ghost var counted: Related := map[];
    assert PairsIn(counted) == {};
    while left != {}
      invariant left <= m.Keys && counted.Keys == m.Keys - left && forall p :: p in counted ==> counted[p] == m[p]
      invariant n == |PairsIn(counted)|
    {
      var p :| p in left;
      OneMoreRow(counted, p, m[p]);
      n := n + |m[p]|;
      left := left - {p};
      counted := counted[p := m[p]];
    }
    assert counted == m;
  }

  lemma OneMoreRow(m: Related, p: PolicyId, qs: set<PolicyId>)
    requires p !in m
    ensures |PairsIn(m[p := qs])| == |PairsIn(m)| + |qs|
  {
    var here := set q | q in qs :: (p, q);
    assert PairsIn(m[p := qs]) == PairsIn(m) + here;
    assert PairsIn(m) !! here;
    SameSize(p, qs);
  }

  lemma SameSize(p: PolicyId, qs: set<PolicyId>)
    ensures |set q | q in qs :: (p, q)| == |qs|
  {
    if qs != {} {
      var q :| q in qs;
      SameSize(p, qs - {q});
      assert (set x | x in qs :: (p, x)) == (set x | x in qs - {q} :: (p, x)) + {(p, q)};
    }
  }

  /** The related pairs of one kind in one environment, as match sets define them */
  ghost predicate IsPair(kind: Kind, w: World, ps: seq<Policy>, p: PolicyId, q: PolicyId, env: nat) {
    Found(kind, w, ps, AllPairs(ps), p, q, env)
  }

  ghost predicate MapExact(m: Related, kind: Kind, w: World, ps: seq<Policy>, env: nat) {
    forall p, q :: (p in m && q in m[p]) <==> IsPair(kind, w, ps, p, q, env)
  }

  /** The policies redundant with `p`, and `p` */
  ghost function RedundancyClass(w: World, ps: seq<Policy>, p: PolicyId, env: nat): set<PolicyId> {
    {p} + set q | q in Ids(ps) && IsPair(Redundancy, w, ps, p, q, env)
  }

  ghost predicate ClassesExact(classes: seq<set<PolicyId>>, w: World, ps: seq<Policy>, env: nat) {
    && (forall c :: c in classes <==> |c| >= 2 && exists p :: p in Ids(ps) && RedundancyClass(w, ps, p, env) == c)
    && (forall i, j | 0 <= i < j < |classes| :: classes[i] !! classes[j])
  }

  ghost predicate EntryExact(s: PerSig, w: World, ps: seq<Policy>) {
    && ClassesExact(s.classes, w, ps, s.env)
    && MapExact(s.permitShadowed, PermitShadowing, w, ps, s.env)
    && MapExact(s.forbidShadowed, ForbidShadowing, w, ps, s.env)
    && MapExact(s.permitOverridden, Override, w, ps, s.env)
  }

  ghost predicate HasFinding(w: World, ps: seq<Policy>, env: nat) {
    exists kind, p, q :: IsPair(kind, w, ps, p, q, env)
  }

  /** An exact entry for each environment with a finding, in order, and no other entry */
  ghost predicate EntriesExact(perSig: seq<PerSig>, w: World, ps: seq<Policy>, envs: nat) {
    && (forall s <- perSig :: s.env < envs && EntryExact(s, w, ps))
    && (forall i, j | 0 <= i < j < |perSig| :: perSig[i].env < perSig[j].env)
    && (forall env | 0 <= env < envs :: HasFinding(w, ps, env) <==> exists s :: s in perSig && s.env == env)
  }

  ghost predicate IsOverall(v: Vacuity, w: World, envs: nat, matched: nat -> iset<Request>) {
    v == (if forall env: nat | env < envs :: VacuityOf(matched(env), w.Space(env)) == MatchesAll then MatchesAll
          else if forall env: nat | env < envs :: VacuityOf(matched(env), w.Space(env)) == MatchesNone then MatchesNone
          else MatchesSome)
  }

  ghost predicate VacuousExact(m: map<PolicyId, Vacuity>, w: World, ps: seq<Policy>, envs: nat) {
    && m.Keys <= Ids(ps)
    && forall a | 0 <= a < |ps| ::
         var p := ps[a];
         var v := if p.id in m then m[p.id] else MatchesSome;
         (p.id in m ==> v != MatchesSome) && IsOverall(v, w, envs, (env: nat) => w.Match(p, env))
  }

  ghost predicate ReportExact(report: Report, w: World, ps: seq<Policy>, envs: nat) {
    && EntriesExact(report.perSig, w, ps, envs)
    && VacuousExact(report.vacuousPolicies, w, ps, envs)
    && IsOverall(report.vacuous, w, envs, (env: nat) => w.Allowed(ps, env))
  }

  // ----- from the tables to the report -----

  lemma ColumnExact(table: Table, kind: Kind, w: World, ps: seq<Policy>, envs: nat, env: nat)
    requires Tracks(table, kind, w, ps, AllPairs(ps), envs) && env < envs
    ensures MapExact(Column(table, env), kind, w, ps, env)
    ensures forall p, q :: IsPair(kind, w, ps, p, q, env) ==> p in table
  {
  }

  lemma RedundancyPairs(w: World, ps: seq<Policy>, env: nat, p: PolicyId, q: PolicyId, r: PolicyId)
    requires IsPair(Redundancy, w, ps, p, q, env)
    ensures IsPair(Redundancy, w, ps, q, p, env)
    ensures IsPair(Redundancy, w, ps, q, r, env) && r != p ==> IsPair(Redundancy, w, ps, p, r, env)
  {
  }

  lemma RedundancyPartition(m: Related, w: World, ps: seq<Policy>, env: nat)
    requires MapExact(m, Redundancy, w, ps, env)
    requires forall p, q :: IsPair(Redundancy, w, ps, p, q, env) ==> p in m
    ensures Symmetric(m) && Transitive(m)
  {
    forall p, q | p in m && q in m[p]
      ensures q in m && p in m[q]
    {
      assert IsPair(Redundancy, w, ps, p, q, env);
      RedundancyPairs(w, ps, env, p, q, q);
    }
    forall p, q, r | p in m && q in m[p] && q in m && r in m[q] && r != p
      ensures r in m[p]
    {
      assert IsPair(Redundancy, w, ps, p, q, env) && IsPair(Redundancy, w, ps, q, r, env);
      RedundancyPairs(w, ps, env, p, q, r);
    }
  }

  lemma SameClass(m: Related, w: World, ps: seq<Policy>, env: nat, p: PolicyId)
    requires MapExact(m, Redundancy, w, ps, env)
    ensures RedundancyClass(w, ps, p, env) == if p in m then ClassOf(m, p) else {p}
  {
  }

  lemma ClassIsExact(m: Related, c: set<PolicyId>, w: World, ps: seq<Policy>, env: nat)
    requires MapExact(m, Redundancy, w, ps, env) && m.Keys <= Ids(ps) && |c| >= 2
    ensures IsClass(m, m.Keys, c) <==> exists p :: p in Ids(ps) && RedundancyClass(w, ps, p, env) == c
  {
    if IsClass(m, m.Keys, c) {
      var p :| p in m && ClassOf(m, p) == c;
      SameClass(m, w, ps, env, p);
      assert p in Ids(ps) && RedundancyClass(w, ps, p, env) == c;
    }
    if p :| p in Ids(ps) && RedundancyClass(w, ps, p, env) == c {
      SameClass(m, w, ps, env, p);
      assert |{p}| == 1;
    }
  }

  lemma ClassesAreExact(m: Related, classes: seq<set<PolicyId>>, w: World, ps: seq<Policy>, env: nat)
    requires MapExact(m, Redundancy, w, ps, env) && m.Keys <= Ids(ps) && AreClasses(m, classes)
    ensures ClassesExact(classes, w, ps, env)
  {
    forall c
      ensures c in classes <==> |c| >= 2 && exists p :: p in Ids(ps) && RedundancyClass(w, ps, p, env) == c
    {
      assert c in classes <==> IsClass(m, m.Keys, c);
      if |c| >= 2 { ClassIsExact(m, c, w, ps, env); }
    }
  }

  lemma SomeClass(m: Related, classes: seq<set<PolicyId>>, w: World, ps: seq<Policy>, env: nat)
    requires MapExact(m, Redundancy, w, ps, env) && AreClasses(m, classes)
    ensures classes != [] <==> exists p, q :: IsPair(Redundancy, w, ps, p, q, env)
  {
    if classes != [] {
      assert classes[0] in classes;
      var p :| p in m && ClassOf(m, p) == classes[0];
      assert |m[p] + {p}| <= |m[p]| + |{p}|;
      var q :| q in m[p];
      assert IsPair(Redundancy, w, ps, p, q, env);
    }
    if p, q :| IsPair(Redundancy, w, ps, p, q, env) {
      assert q in m[p] - {p};
      HasClass(m, classes, p);
    }
  }

  lemma SomePair(m: Related, kind: Kind, w: World, ps: seq<Policy>, env: nat)
    requires MapExact(m, kind, w, ps, env)
    ensures |PairsIn(m)| != 0 <==> exists p, q :: IsPair(kind, w, ps, p, q, env)
  {
    if |PairsIn(m)| != 0 {
      var pr :| pr in PairsIn(m);
      assert IsPair(kind, w, ps, pr.0, pr.1, env);
    }
    if p, q :| IsPair(kind, w, ps, p, q, env) {
      assert (p, q) in PairsIn(m);
    }
  }

  /** `PerSigFindings::new` and `nfindings` for one environment; no table lacks a row for it. */
  method BuildEntry(tables: PairFindings, env: nat, ghost envs: nat, ghost w: World, ghost ps: seq<Policy>)
    returns (s: PerSig, n: nat)
    requires tables.Holds(w, ps, AllPairs(ps), envs) && env < envs
    ensures s.env == env && EntryExact(s, w, ps)
    ensures n != 0 <==> HasFinding(w, ps, env)
  {
    var redundant := Column(tables.redundant, env);
    ColumnExact(tables.redundant, Redundancy, w, ps, envs, env);
    ColumnExact(tables.permitShadowed, PermitShadowing, w, ps, envs, env);
    ColumnExact(tables.forbidShadowed, ForbidShadowing, w, ps, envs, env);
    ColumnExact(tables.permitOverridden, Override, w, ps, envs, env);
    RedundancyPartition(redundant, w, ps, env);
    RelatedShareClass(redundant);
    var classes := PeelClasses(redundant);
    ClassesAreExact(redundant, classes, w, ps, env);
    s := PerSig(env, classes, Column(tables.permitShadowed, env), Column(tables.forbidShadowed, env),
                Column(tables.permitOverridden, env));
    var n1 := CountFindings(s.permitShadowed);
    var n2 := CountFindings(s.permitOverridden);
    var n3 := CountFindings(s.forbidShadowed);
    n := |classes| + n1 + n2 + n3;
    SomeClass(redundant, classes, w, ps, env);
    SomePair(s.permitShadowed, PermitShadowing, w, ps, env);
    SomePair(s.forbidShadowed, ForbidShadowing, w, ps, env);
    SomePair(s.permitOverridden, Override, w, ps, env);
    FindingKinds(w, ps, env);
  }

  lemma FindingKinds(w: World, ps: seq<Policy>, env: nat)
    ensures HasFinding(w, ps, env) <==>
              || (exists p, q :: IsPair(Redundancy, w, ps, p, q, env))
              || (exists p, q :: IsPair(PermitShadowing, w, ps, p, q, env))
              || (exists p, q :: IsPair(ForbidShadowing, w, ps, p, q, env))
              || (exists p, q :: IsPair(Override, w, ps, p, q, env))
  {
  }

  /** The entries of all environments that have any findings */
  method BuildEntries(
      tables: PairFindings, envs: nat, ghost w: World, ghost ps: seq<Policy>)
    returns (perSig: seq<PerSig>)
    requires tables.Holds(w, ps, AllPairs(ps), envs)
    ensures EntriesExact(perSig, w, ps, envs)
  {
    perSig := [];
    for env := 0 to envs
      invariant EntriesExact(perSig, w, ps, env)
    {
      ghost var before := perSig;
      var s, n := BuildEntry(tables, env, envs, w, ps);
      if n != 0 {
        perSig := perSig + [s];
        assert s in perSig;
      }
      forall e | 0 <= e < env + 1
        ensures HasFinding(w, ps, e) <==> exists s :: s in perSig && s.env == e
      {
        if e < env && HasFinding(w, ps, e) {
          var t :| t in before && t.env == e;
          assert t in perSig;
        }
      }
    }
  }

  /** The loop over pairs */
  method ComparePairs(solver: Solver, ps: seq<Policy>, vacuity: map<PolicyId, seq<Vacuity>>, envs: nat, ghost w: World)
    returns (tables: PairFindings)
    requires ExactMatching(solver, w) && ExactImplication(solver, w) && DistinctIds(ps)
    requires Precomputed(vacuity, w, ps, |ps|, envs)
    ensures fresh(tables) && tables.Holds(w, ps, AllPairs(ps), envs)
  {
    tables := new PairFindings(w, ps, envs);
    ghost var done: Pairs := {};
    for i := 0 to |ps|
      invariant fresh(tables) && tables.Holds(w, ps, done, envs)
      invariant done <= AllPairs(ps) && RowsIn(ps, done, i)
    {
      done := CompareWithLater(solver, ps, i, vacuity, envs, w, tables, done);
    }
    AllDone(ps, done);
  }

  /** The pairs of one policy with the later ones */
  method CompareWithLater(solver: Solver, ps: seq<Policy>, i: nat, vacuity: map<PolicyId, seq<Vacuity>>, envs: nat,
                          ghost w: World, tables: PairFindings, ghost done: Pairs) returns (ghost more: Pairs)
    requires ExactMatching(solver, w) && ExactImplication(solver, w) && DistinctIds(ps) && i < |ps|
    requires Precomputed(vacuity, w, ps, |ps|, envs)
    requires tables.Holds(w, ps, done, envs) && done <= AllPairs(ps) && RowsIn(ps, done, i)
    modifies tables
    ensures tables.Holds(w, ps, more, envs) && more <= AllPairs(ps) && RowsIn(ps, more, i + 1)
  {
    more := done;
    LookupAt(ps, i);
    for j := i + 1 to |ps|
      invariant tables.Holds(w, ps, more, envs) && done <= more <= AllPairs(ps)
      invariant RowIn(ps, more, i, j)
    {
      LookupAt(ps, j);
      assert IsVacuity(w, ps[i], envs, vacuity[ps[i].id]) && IsVacuity(w, ps[j], envs, vacuity[ps[j].id]);
      tables.ComparePair(solver, ps[i], vacuity[ps[i].id], ps[j], vacuity[ps[j].id], envs, w, ps, more);
      ghost var before := more;
      more := more + {(ps[i].id, ps[j].id)} + {(ps[j].id, ps[i].id)};
      RowGrows(ps, before, more, i, j);
    }
    forall a | 0 <= a < i + 1
      ensures RowIn(ps, more, a, |ps|)
    {
      if a < i {
        assert RowIn(ps, done, a, |ps|);
        RowGrows(ps, done, more, a, |ps|);
      }
    }
  }

  lemma RowGrows(ps: seq<Policy>, done: Pairs, more: Pairs, a: nat, n: nat)
    requires a < |ps| && n <= |ps| && RowIn(ps, done, a, n) && done <= more
    ensures RowIn(ps, more, a, n)
    ensures n < |ps| && BothIn(ps, more, a, n) ==> RowIn(ps, more, a, n + 1)
  {
    forall b | a < b < n
      ensures BothIn(ps, more, a, b)
    {
      assert BothIn(ps, done, a, b);
    }
  }

  /** Every policy's vacuity is known, so no lookup fails. */
  ghost predicate Precomputed(vacuity: map<PolicyId, seq<Vacuity>>, w: World, ps: seq<Policy>, n: nat, envs: nat)
    requires n <= |ps|
  {
    forall a | 0 <= a < n :: ps[a].id in vacuity && IsVacuity(w, ps[a], envs, vacuity[ps[a].id])
  }

  ghost predicate RowIn(ps: seq<Policy>, done: Pairs, a: nat, n: nat)
    requires a < |ps| && n <= |ps|
  {
    forall b | a < b < n :: BothIn(ps, done, a, b)
  }

  ghost predicate RowsIn(ps: seq<Policy>, done: Pairs, n: nat)
    requires n <= |ps|
  {
    forall a | 0 <= a < n :: RowIn(ps, done, a, |ps|)
  }

  ghost predicate BothIn(ps: seq<Policy>, done: Pairs, a: nat, b: nat)
    requires a < |ps| && b < |ps|
  {
    (ps[a].id, ps[b].id) in done && (ps[b].id, ps[a].id) in done
  }

  lemma AllDone(ps: seq<Policy>, done: Pairs)
    requires done <= AllPairs(ps) && RowsIn(ps, done, |ps|)
    ensures done == AllPairs(ps)
  {
    forall p, q | p in Ids(ps) && q in Ids(ps) && p != q
      ensures (p, q) in done
    {
      var a :| 0 <= a < |ps| && ps[a].id == p;
      var b :| 0 <= b < |ps| && ps[b].id == q;
      if a < b {
        assert RowIn(ps, done, a, |ps|);
        assert BothIn(ps, done, a, b);
      } else {
        assert RowIn(ps, done, b, |ps|);
        assert BothIn(ps, done, b, a);
      }
    }
  }

  lemma OverallExact(results: seq<Vacuity>, w: World, envs: nat, matched: nat -> iset<Request>)
    requires |results| == envs && forall env: nat | env < envs :: results[env] == VacuityOf(matched(env), w.Space(env))
    ensures IsOverall(Overall(results), w, envs, matched)
  {
    assert forall env: nat | env < envs :: results[env] in results;
  }

  method AllVacuities(solver: Solver, ps: seq<Policy>, envs: nat, ghost w: World)
    returns (vacuity: map<PolicyId, seq<Vacuity>>)
    requires ExactMatching(solver, w) && DistinctIds(ps)
    ensures Precomputed(vacuity, w, ps, |ps|, envs) && vacuity.Keys <= Ids(ps)
  {
    vacuity := map[];
    for i := 0 to |ps|
      invariant Precomputed(vacuity, w, ps, i, envs) && vacuity.Keys <= Ids(ps)
    {
      var pvr := PolicyVacuous(solver, w, ps[i], envs);
      vacuity := vacuity[ps[i].id := pvr];
    }
  }

  function VacuousPolicies(vacuity: map<PolicyId, seq<Vacuity>>): map<PolicyId, Vacuity> {
    map p | p in vacuity && Overall(vacuity[p]) != MatchesSome :: Overall(vacuity[p])
  }

  lemma VacuousPoliciesExact(vacuity: map<PolicyId, seq<Vacuity>>, w: World, ps: seq<Policy>, envs: nat)
    requires Precomputed(vacuity, w, ps, |ps|, envs) && vacuity.Keys <= Ids(ps)
    ensures VacuousExact(VacuousPolicies(vacuity), w, ps, envs)
  {
    var m := VacuousPolicies(vacuity);
    forall a | 0 <= a < |ps|
      ensures var v := if ps[a].id in m then m[ps[a].id] else MatchesSome;
              IsOverall(v, w, envs, (env: nat) => w.Match(ps[a], env))
    {
      assert IsVacuity(w, ps[a], envs, vacuity[ps[a].id]);
      OverallExact(vacuity[ps[a].id], w, envs, (env: nat) => w.Match(ps[a], env));
    }
  }

  /** `analyze_policyset`, up to printing: the report is exact, for policies in any order. */
  method AnalyzePolicySet(solver: Solver, ps: seq<Policy>, envs: nat, ghost w: World) returns (report: Report)
    requires ExactMatching(solver, w) && ExactImplication(solver, w) && ExactAuthorization(solver, w)
    requires DistinctIds(ps)
    ensures ReportExact(report, w, ps, envs)
  {
    var vacuity := AllVacuities(solver, ps, envs, w);
    var setVacuity := PolicySetVacuous(solver, w, ps, envs);
    var tables := ComparePairs(solver, ps, vacuity, envs, w);
    var perSig := BuildEntries(tables, envs, w, ps);
    OverallExact(setVacuity, w, envs, (env: nat) => w.Allowed(ps, env));
    VacuousPoliciesExact(vacuity, w, ps, envs);
    report := Report(Overall(setVacuity), VacuousPolicies(vacuity), perSig);
  }

  // ----- what the reported relations are -----

  /** Shadowing, of permits and of forbids, is a strict partial order that respects redundancy. */
  lemma ShadowingIsStrictOrder(kind: Kind, w: World, ps: seq<Policy>, env: nat, p: PolicyId, q: PolicyId, r: PolicyId)
    requires kind == PermitShadowing || kind == ForbidShadowing
    ensures !(IsPair(kind, w, ps, p, q, env) && IsPair(kind, w, ps, q, p, env))
    ensures IsPair(kind, w, ps, p, q, env) && IsPair(kind, w, ps, q, r, env) ==> IsPair(kind, w, ps, p, r, env)
    ensures IsPair(Redundancy, w, ps, p, q, env) && IsPair(kind, w, ps, p, r, env) ==> IsPair(kind, w, ps, q, r, env)
    ensures IsPair(Redundancy, w, ps, q, r, env) && IsPair(kind, w, ps, p, q, env) ==> IsPair(kind, w, ps, p, r, env)
    ensures !(IsPair(Redundancy, w, ps, p, q, env) && IsPair(kind, w, ps, p, q, env))
  {
  }

  /** Redundancy means an equal nonempty match set exactly in the environments that have requests.  In
      one that has none, every policy counts as matching all requests, and any two of the same effect
      are reported as redundant; whether a schema can have one is not modelled. */
  lemma RedundantMeansMatching(w: World, env: nat)
    ensures (forall p, q :: Redundant(w, p, q, env) <==> w.Match(p, env) == w.Match(q, env) != iset{})
       <==> w.Space(env) != iset{}
  {
    var p := Policy("", Permit);
    if w.Space(env) == iset{} {
      assert Redundant(w, p, p, env) && w.Match(p, env) == iset{};
    }
  }
}

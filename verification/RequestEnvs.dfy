/** Enumerating the request environments of a schema, under optional restrictions. */
module RequestEnvs {
  import opened Wrappers

  /** An action uid: the type carries a namespace that JSON schemas add, the id does not. */
  datatype ActionUid = ActionUid(ty: string, id: string)

  datatype RequestEnv = RequestEnv(principal: string, action: ActionUid, resource: string)

  /** The action entities, and the types each action applies to, if any are known */
  datatype Schema = Schema(
    actions: seq<ActionUid>,
    principals: map<ActionUid, seq<string>>,
    resources: map<ActionUid, seq<string>>)

  datatype OpenRequestEnv = OpenRequestEnv(
    principal: Option<string>, action: Option<ActionUid>, resource: Option<string>)

  datatype Answer = Envs(envs: seq<RequestEnv>) | Incompatible

  /** A linear order of the environments, given by their places on the real line, on which any order of
      countably many things can be laid out */
  type Order = RequestEnv -> real

  // ----- the set of environments -----

  function EnvsFor(action: ActionUid, principal: string, resources: seq<string>): seq<RequestEnv> {
    seq(|resources|, i requires 0 <= i < |resources| => RequestEnv(principal, action, resources[i]))
  }

  function EnvsOf(action: ActionUid, principals: seq<string>, resources: seq<string>): seq<RequestEnv> {
    if principals == [] then []
    else EnvsFor(action, principals[0], resources) + EnvsOf(action, principals[1..], resources)
  }

  /** An action that lacks principal or resource types has no environments. */
  function ActionEnvs(schema: Schema, action: ActionUid): seq<RequestEnv> {
    if action in schema.principals && action in schema.resources
    then EnvsOf(action, schema.principals[action], schema.resources[action]) else []
  }

  function AllEnvs(schema: Schema, actions: seq<ActionUid>): seq<RequestEnv> {
    if actions == [] then [] else ActionEnvs(schema, actions[0]) + AllEnvs(schema, actions[1..])
  }

  /** Every restriction that is given is met; actions are compared by id alone. */
  predicate Meets(open: OpenRequestEnv, env: RequestEnv) {
    && (open.action.Some? ==> open.action.value.id == env.action.id)
    && (open.principal.Some? ==> open.principal.value == env.principal)
    && (open.resource.Some? ==> open.resource.value == env.resource)
  }

  predicate Restricts(open: OpenRequestEnv) {
    open.action.Some? || open.principal.Some? || open.resource.Some?
  }

  function Filter(open: OpenRequestEnv, envs: seq<RequestEnv>): seq<RequestEnv> {
    if envs == [] then []
    else if Meets(open, envs[0]) then [envs[0]] + Filter(open, envs[1..])
    else Filter(open, envs[1..])
  }

  function Insert(at: Order, x: RequestEnv, s: seq<RequestEnv>): seq<RequestEnv> {
    if s == [] then [x]
    else if at(x) <= at(s[0]) then [x] + s
    else [s[0]] + Insert(at, x, s[1..])
  }

  /** `Vec::sort` */
  function Sort(at: Order, s: seq<RequestEnv>): seq<RequestEnv> {
    if s == [] then [] else Insert(at, s[0], Sort(at, s[1..]))
  }

  ghost predicate Sorted(at: Order, s: seq<RequestEnv>) {
    forall i, j | 0 <= i < j < |s| :: at(s[i]) <= at(s[j])
  }

  lemma {:induction false} EnvsOfMembers(
      action: ActionUid, principals: seq<string>, resources: seq<string>, e: RequestEnv)
    ensures e in EnvsOf(action, principals, resources)
       <==> e.action == action && e.principal in principals && e.resource in resources
  {
    if principals != [] {
      EnvsOfMembers(action, principals[1..], resources, e);
      var here := EnvsFor(action, principals[0], resources);
      if e.action == action && e.principal == principals[0] && e.resource in resources {
        var i :| 0 <= i < |resources| && resources[i] == e.resource;
        assert here[i] == e;
      }
    }
  }

  /** The environments of a schema: an action with one of its principal types and one of its resource
      types. */
  lemma {:induction false} AllEnvsMembers(schema: Schema, actions: seq<ActionUid>, e: RequestEnv)
    ensures e in AllEnvs(schema, actions)
       <==> && e.action in actions
            && e.action in schema.principals && e.principal in schema.principals[e.action]
            && e.action in schema.resources && e.resource in schema.resources[e.action]
  {
    if actions != [] {
      AllEnvsMembers(schema, actions[1..], e);
      var a := actions[0];
      if a in schema.principals && a in schema.resources {
        EnvsOfMembers(a, schema.principals[a], schema.resources[a], e);
      }
    }
  }

  // ----- how often an environment is listed -----

  lemma CountFirst<T>(s: seq<T>, x: T)
    requires s != []
    ensures multiset(s)[x] == multiset(s[1..])[x] + if s[0] == x then 1 else 0
  {
    assert s == [s[0]] + s[1..];
  }

  lemma CountBoth<T>(a: seq<T>, b: seq<T>, x: T)
    ensures multiset(a + b)[x] == multiset(a)[x] + multiset(b)[x]
  {
  }

  lemma OneMore(n: nat, m: nat)
    ensures (n + 1) * m == n * m + m
  {
  }

  lemma {:induction false} EnvsForCount(
      action: ActionUid, principal: string, resources: seq<string>, e: RequestEnv)
    ensures multiset(EnvsFor(action, principal, resources))[e]
         == if e.action == action && e.principal == principal then multiset(resources)[e.resource] else 0
    decreases resources
  {
    if resources != [] {
      var envs := EnvsFor(action, principal, resources);
      EnvsForCount(action, principal, resources[1..], e);
      assert envs[1..] == EnvsFor(action, principal, resources[1..]);
      CountFirst(envs, e);
      CountFirst(resources, e.resource);
    }
  }

  lemma {:induction false} EnvsOfCount(
      action: ActionUid, principals: seq<string>, resources: seq<string>, e: RequestEnv)
    ensures multiset(EnvsOf(action, principals, resources))[e]
         == if e.action == action then multiset(principals)[e.principal] * multiset(resources)[e.resource] else 0
    decreases principals
  {
    if principals != [] {
      var here, later := EnvsFor(action, principals[0], resources), EnvsOf(action, principals[1..], resources);
      EnvsForCount(action, principals[0], resources, e);
      EnvsOfCount(action, principals[1..], resources, e);
      CountFirst(principals, e.principal);
      CountBoth(here, later, e);
      OneMore(multiset(principals[1..])[e.principal], multiset(resources)[e.resource]);
    }
  }

  /** How often an action lists an environment of its own: once for each mention of the principal type
      and each mention of the resource type */
  function Combinations(schema: Schema, e: RequestEnv): nat {
    if e.action in schema.principals && e.action in schema.resources
    then multiset(schema.principals[e.action])[e.principal] * multiset(schema.resources[e.action])[e.resource]
    else 0
  }

  /** An environment is listed once for each mention of its action, principal type and resource type. */
  lemma {:induction false} AllEnvsCount(schema: Schema, actions: seq<ActionUid>, e: RequestEnv)
    ensures multiset(AllEnvs(schema, actions))[e] == multiset(actions)[e.action] * Combinations(schema, e)
    decreases actions
  {
    if actions != [] {
      var a := actions[0];
      AllEnvsCount(schema, actions[1..], e);
      CountFirst(actions, e.action);
      if a in schema.principals && a in schema.resources {
        EnvsOfCount(a, schema.principals[a], schema.resources[a], e);
      }
      CountBoth(ActionEnvs(schema, a), AllEnvs(schema, actions[1..]), e);
      OneMore(multiset(actions[1..])[e.action], Combinations(schema, e));
    }
  }

  // ----- sorting and filtering -----

  lemma {:induction false} InsertMembers(at: Order, x: RequestEnv, s: seq<RequestEnv>)
    ensures multiset(Insert(at, x, s)) == multiset(s) + multiset{x}
    ensures forall y :: y in Insert(at, x, s) <==> y == x || y in s
  {
    if s != [] {
      assert s == [s[0]] + s[1..];
      if at(x) > at(s[0]) { InsertMembers(at, x, s[1..]); }
    }
  }

  lemma {:induction false} InsertSorted(at: Order, x: RequestEnv, s: seq<RequestEnv>)
    requires Sorted(at, s)
    ensures Sorted(at, Insert(at, x, s))
  {
    if s != [] && at(x) > at(s[0]) {
      InsertSorted(at, x, s[1..]);
      InsertMembers(at, x, s[1..]);
      var rest := Insert(at, x, s[1..]);
      forall i | 0 <= i < |rest|
        ensures at(s[0]) <= at(rest[i])
      {
        assert rest[i] in rest;
      }
    }
  }

  lemma {:induction false} SortSorts(at: Order, s: seq<RequestEnv>)
    ensures Sorted(at, Sort(at, s)) && multiset(Sort(at, s)) == multiset(s)
  {
    if s != [] {
      SortSorts(at, s[1..]);
      InsertSorted(at, s[0], Sort(at, s[1..]));
      InsertMembers(at, s[0], Sort(at, s[1..]));
      assert s == [s[0]] + s[1..];
    }
  }

  /** The order is linear: different environments have different places. */
  ghost predicate Linear(at: Order) {
    forall x, y | at(x) == at(y) :: x == y
  }

  lemma Tail(s: seq<RequestEnv>)
    requires s != []
    ensures multiset(s[1..]) == multiset(s) - multiset{s[0]}
  {
    assert s == [s[0]] + s[1..];
  }

  lemma LeastFirst(at: Order, s: seq<RequestEnv>, x: RequestEnv)
    requires Sorted(at, s) && x in multiset(s)
    ensures s != [] && at(s[0]) <= at(x)
  {
    var i :| 0 <= i < |s| && s[i] == x;
  }

  lemma {:induction false} SortedUnique(at: Order, s: seq<RequestEnv>, t: seq<RequestEnv>)
    requires Linear(at) && Sorted(at, s) && Sorted(at, t) && multiset(s) == multiset(t)
    ensures s == t
  {
    assert |s| == |multiset(s)| == |multiset(t)| == |t|;
    if s != [] {
      LeastFirst(at, s, t[0]);
      LeastFirst(at, t, s[0]);
      assert s[0] == t[0];
      Tail(s);
      Tail(t);
      SortedUnique(at, s[1..], t[1..]);
      assert s == [s[0]] + s[1..] && t == [t[0]] + t[1..];
    }
  }

  /** The answer does not depend on the order in which actions and types are visited. */
  lemma AnswerDeterministic(at: Order, open: OpenRequestEnv, s: seq<RequestEnv>, t: seq<RequestEnv>)
    requires Linear(at) && multiset(s) == multiset(t)
    ensures Filter(open, Sort(at, s)) == Filter(open, Sort(at, t))
    ensures Filter(open, s) == [] <==> Filter(open, t) == []
  {
    SortSorts(at, s);
    SortSorts(at, t);
    SortedUnique(at, Sort(at, s), Sort(at, t));
    FilterSort(at, open, s);
    FilterSort(at, open, t);
    SortSorts(at, Filter(open, s));
    SortSorts(at, Filter(open, t));
  }

  lemma {:induction false} FilterConcat(open: OpenRequestEnv, a: seq<RequestEnv>, b: seq<RequestEnv>)
    ensures Filter(open, a + b) == Filter(open, a) + Filter(open, b)
  {
    if a == [] {
      assert a + b == b;
    } else {
      FilterConcat(open, a[1..], b);
      assert (a + b)[1..] == a[1..] + b;
    }
  }

  lemma {:induction false} FilterMembers(open: OpenRequestEnv, s: seq<RequestEnv>)
    ensures forall x :: x in Filter(open, s) <==> x in s && Meets(open, x)
  {
    if s != [] { FilterMembers(open, s[1..]); }
  }

  /** The unrestricted call lists every environment. */
  lemma {:induction false} UnrestrictedKeepsAll(open: OpenRequestEnv, s: seq<RequestEnv>)
    requires !Restricts(open)
    ensures Filter(open, s) == s
  {
    if s != [] { UnrestrictedKeepsAll(open, s[1..]); }
  }

  lemma {:induction false} InsertLeast(at: Order, x: RequestEnv, s: seq<RequestEnv>)
    requires forall y <- s :: at(x) <= at(y)
    ensures Insert(at, x, s) == [x] + s
  {
  }

  lemma {:induction false} FilterInsert(at: Order, open: OpenRequestEnv, x: RequestEnv, s: seq<RequestEnv>)
    requires Sorted(at, s)
    ensures Filter(open, Insert(at, x, s))
         == if Meets(open, x) then Insert(at, x, Filter(open, s)) else Filter(open, s)
  {
    if s != [] {
      if at(x) <= at(s[0]) {
        FilterMembers(open, s);
        assert ([x] + s)[1..] == s;
        if Meets(open, x) {
          forall y | y in Filter(open, s)
            ensures at(x) <= at(y)
          {
            var j :| 0 <= j < |s| && s[j] == y;
            assert j == 0 || at(s[0]) <= at(s[j]);
          }
          InsertLeast(at, x, Filter(open, s));
        }
      } else {
        FilterInsert(at, open, x, s[1..]);
        assert ([s[0]] + Insert(at, x, s[1..]))[1..] == Insert(at, x, s[1..]);
        if Meets(open, s[0]) {
          assert Filter(open, s)[1..] == Filter(open, s[1..]);
        }
      }
    }
  }

  /** Restricting the sorted list is the same as sorting the restricted one. */
  lemma {:induction false} FilterSort(at: Order, open: OpenRequestEnv, s: seq<RequestEnv>)
    ensures Filter(open, Sort(at, s)) == Sort(at, Filter(open, s))
  {
    if s != [] {
      FilterSort(at, open, s[1..]);
      SortSorts(at, s[1..]);
      FilterInsert(at, open, s[0], Sort(at, s[1..]));
      if Meets(open, s[0]) {
        assert Filter(open, s)[1..] == Filter(open, s[1..]);
      }
    }
  }

  // ----- the nested loops -----

  lemma {:induction false} NoneMeet(open: OpenRequestEnv, s: seq<RequestEnv>)
    requires forall e <- s :: !Meets(open, e)
    ensures Filter(open, s) == []
  {
    if s != [] {
      assert s[0] in s;
      NoneMeet(open, s[1..]);
    }
  }

  lemma {:induction false} EnvsOfPush(action: ActionUid, principals: seq<string>, p: string, resources: seq<string>)
    ensures EnvsOf(action, principals + [p], resources)
         == EnvsOf(action, principals, resources) + EnvsFor(action, p, resources)
  {
    if principals != [] {
      EnvsOfPush(action, principals[1..], p, resources);
      assert (principals + [p])[1..] == principals[1..] + [p];
    }
  }

  lemma Regroup(x: seq<RequestEnv>, y: seq<RequestEnv>, z: seq<RequestEnv>)
    ensures x + (y + z) == x + y + z
  {
  }

  lemma {:induction false} AllEnvsPush(schema: Schema, actions: seq<ActionUid>, a: ActionUid)
    ensures AllEnvs(schema, actions + [a]) == AllEnvs(schema, actions) + ActionEnvs(schema, a)
  {
    if actions == [] {
      assert actions + [a] == [a] && AllEnvs(schema, [a][1..]) == [];
    } else {
      AllEnvsPush(schema, actions[1..], a);
      var longer := actions + [a];
      assert longer[0] == actions[0] && longer[1..] == actions[1..] + [a];
      Regroup(ActionEnvs(schema, actions[0]), AllEnvs(schema, actions[1..]), ActionEnvs(schema, a));
    }
  }

  lemma {:induction false} EnvsOfAction(action: ActionUid, principals: seq<string>, resources: seq<string>)
    ensures forall e <- EnvsOf(action, principals, resources) :: e.action == action
  {
    if principals != [] { EnvsOfAction(action, principals[1..], resources); }
  }

  /** The loop over resource types, for an action and a principal type that meet the restrictions */
  method EnvsForPrincipal(open: OpenRequestEnv, action: ActionUid, principal: string, resources: seq<string>)
    returns (envs: seq<RequestEnv>)
    requires open.action.Some? ==> open.action.value.id == action.id
    requires open.principal.Some? ==> open.principal.value == principal
    ensures envs == Filter(open, EnvsFor(action, principal, resources))
  {
    envs := [];
    ghost var all := EnvsFor(action, principal, resources);
    for k := 0 to |resources|
      invariant envs == Filter(open, all[..k])
    {
      assert all[..k + 1] == all[..k] + [all[k]];
      FilterConcat(open, all[..k], [all[k]]);
      if open.resource.Some? && open.resource.value != resources[k] {
        continue;
      }
      envs := envs + [RequestEnv(principal, action, resources[k])];
    }
    assert all[..|resources|] == all;
  }

  /** The loop over principal types, for an action that meets the restrictions */
  method EnvsForAction(open: OpenRequestEnv, schema: Schema, action: ActionUid) returns (envs: seq<RequestEnv>)
    requires open.action.Some? ==> open.action.value.id == action.id
    ensures envs == Filter(open, ActionEnvs(schema, action))
  {
    envs := [];
    if action !in schema.principals || action !in schema.resources {
      return;
    }
    var principals, resources := schema.principals[action], schema.resources[action];
    for j := 0 to |principals|
      invariant envs == Filter(open, EnvsOf(action, principals[..j], resources))
    {
      assert principals[..j + 1] == principals[..j] + [principals[j]];
      EnvsOfPush(action, principals[..j], principals[j], resources);
      FilterConcat(open, EnvsOf(action, principals[..j], resources), EnvsFor(action, principals[j], resources));
      if open.principal.Some? && open.principal.value != principals[j] {
        NoneMeet(open, EnvsFor(action, principals[j], resources));
        continue;
      }
      var more := EnvsForPrincipal(open, action, principals[j], resources);
      envs := envs + more;
    }
    assert principals[..|principals|] == principals;
  }

  /** `to_request_envs`: the environments of the unrestricted call that meet the restrictions, in its
      order; an error exactly when there is a restriction and nothing remains. */
  method ToRequestEnvs(open: OpenRequestEnv, schema: Schema, at: Order) returns (r: Answer)
    ensures r == if Restricts(open) && Filter(open, AllEnvs(schema, schema.actions)) == [] then Incompatible
                 else Envs(Filter(open, Sort(at, AllEnvs(schema, schema.actions))))
  {
    var envs: seq<RequestEnv> := [];
    var actions := schema.actions;
    for i := 0 to |actions|
      invariant envs == Filter(open, AllEnvs(schema, actions[..i]))
    {
      var action := actions[i];
      assert actions[..i + 1] == actions[..i] + [action];
      AllEnvsPush(schema, actions[..i], action);
      FilterConcat(open, AllEnvs(schema, actions[..i]), ActionEnvs(schema, action));
      if open.action.Some? && open.action.value.id != action.id {
        if ActionEnvs(schema, action) != [] {
          EnvsOfAction(action, schema.principals[action], schema.resources[action]);
        }
        NoneMeet(open, ActionEnvs(schema, action));
        continue;
      }
      var more := EnvsForAction(open, schema, action);
      envs := envs + more;
    }
    assert actions[..|actions|] == actions;
    FilterSort(at, open, AllEnvs(schema, actions));
    if envs == [] && Restricts(open) {
      return Incompatible;
    }
    r := Envs(Sort(at, envs));
  }

  /** What the answer says about one environment, for every schema and restriction: it is listed as
      often as the schema has it if it meets the restrictions, and not at all otherwise. */
  lemma {:induction false} AnswerCounts(open: OpenRequestEnv, s: seq<RequestEnv>, at: Order, e: RequestEnv)
    ensures Sorted(at, Sort(at, Filter(open, s)))
    ensures multiset(Filter(open, Sort(at, s)))[e] == if Meets(open, e) then multiset(s)[e] else 0
  {
    FilterSort(at, open, s);
    SortSorts(at, Filter(open, s));
    FilterCounts(open, s, e);
  }

  lemma {:induction false} FilterCounts(open: OpenRequestEnv, s: seq<RequestEnv>, e: RequestEnv)
    ensures multiset(Filter(open, s))[e] == if Meets(open, e) then multiset(s)[e] else 0
  {
    if s != [] {
      FilterCounts(open, s[1..], e);
      assert s == [s[0]] + s[1..];
    }
  }
}

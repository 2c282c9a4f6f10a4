/** Entitlement IDs, and how granting and revoking finds its way from an ID to the queries to run. */
module Entitlements {
  import opened Wrappers
  import opened Template
  import opened SqlValues
  import opened Provisioning

  // ---- IDs ----------------------------------------------------------------

  /** The SDK's `NewEntitlementID`. */
  function NewEntitlementID(resourceType: string, resource: string, name: string): string {
    resourceType + ":" + resource + ":" + name
  }

  /** `strings.SplitN(s, ":", n)`: at most n parts, the last one unsplit. */
  function SplitN(s: string, n: nat): (parts: seq<string>)
    requires n >= 1
    ensures 1 <= |parts| <= n
    decreases n
  {
    var i := ColonIn(s);
    if n == 1 || i == |s| then [s] else [s[..i]] + SplitN(s[i + 1..], n - 1)
  }

  /** The position of the first colon, or the length. */
  function ColonIn(s: string): (i: nat)
    ensures i <= |s|
    ensures i < |s| ==> s[i] == ':'
    ensures ':' !in s[..i]
  {
    if s == "" || s[0] == ':' then 0
    else
      var i := 1 + ColonIn(s[1..]);
      assert s[..i] == [s[0]] + s[1..][..i - 1];
      i
  }

  function Colons(s: string): nat {
    if s == "" then 0 else (if s[0] == ':' then 1 else 0) + Colons(s[1..])
  }

  function Joined(parts: seq<string>): string
    requires parts != []
  {
    if |parts| == 1 then parts[0] else parts[0] + ":" + Joined(parts[1..])
  }

  function SplitEntitlementID(id: string): Result<(string, string, string), Error> {
    var parts := SplitN(id, 3);
    if |parts| != 3 then Err(BadEntitlementId) else Ok((parts[0], parts[1], parts[2]))
  }

  lemma {:induction false} ColonFirst(a: string, b: string)
    requires ':' !in a
    ensures ColonIn(a + ":" + b) == |a|
  {
    var s := a + ":" + b;
    if a != "" {
      assert s[0] == a[0] && a[0] in a;
      assert s[1..] == a[1..] + ":" + b;
      ColonFirst(a[1..], b);
    }
  }

  lemma {:induction false} ColonsAt(s: string)
    ensures var i := ColonIn(s);
            Colons(s) == if i == |s| then 0 else 1 + Colons(s[i + 1..])
  {
    if s != "" && s[0] != ':' {
      ColonsAt(s[1..]);
      var i := ColonIn(s[1..]);
      if i < |s| - 1 { assert s[1..][i + 1..] == s[i + 2..]; }
    }
  }

  lemma JoinedMore(a: string, parts: seq<string>)
    requires parts != []
    ensures Joined([a] + parts) == a + ":" + Joined(parts)
  {
    assert ([a] + parts)[1..] == parts;
  }

  lemma {:induction false} SplitNJoins(s: string, n: nat)
    requires n >= 1
    ensures Joined(SplitN(s, n)) == s
    decreases n
  {
    var i := ColonIn(s);
    if n > 1 && i < |s| {
      var rest := s[i + 1..];
      SplitNJoins(rest, n - 1);
      JoinedMore(s[..i], SplitN(rest, n - 1));
      assert s == s[..i] + ":" + rest;
    }
  }

  lemma SplitNStep(s: string, n: nat)
    requires n > 1 && ColonIn(s) < |s|
    ensures |SplitN(s, n)| == 1 + |SplitN(s[ColonIn(s) + 1..], n - 1)|
  {
  }

  lemma {:induction false} SplitNCounts(s: string, n: nat)
    requires n >= 1
    ensures |SplitN(s, n)| == if Colons(s) + 1 < n then Colons(s) + 1 else n
    decreases n
  {
    var i := ColonIn(s);
    ColonsAt(s);
    if n > 1 && i < |s| {
      var rest := s[i + 1..];
      SplitNCounts(rest, n - 1);
      SplitNStep(s, n);
    }
  }

  lemma ThreeParts(a: string, b: string, c: string)
    ensures Joined([a, b, c]) == NewEntitlementID(a, b, c)
  {
    assert [a, b, c][1..] == [b, c] && [b, c][1..] == [c];
    assert Joined([b, c]) == b + ":" + c;
    assert Joined([a, b, c]) == a + ":" + Joined([b, c]);
  }

  /** An ID splits if and only if it has at least two colons, and its parts make up the ID again. */
  lemma SplitExactly(id: string)
    ensures SplitEntitlementID(id).Ok? <==> Colons(id) >= 2
    ensures SplitEntitlementID(id).Ok? ==>
              var (t, r, n) := SplitEntitlementID(id).value;
              NewEntitlementID(t, r, n) == id == t + ":" + r + ":" + n && ':' !in t && ':' !in r
  {
    PartsHaveNoColon(id);
    SplitNJoins(id, 3);
    SplitNCounts(id, 3);
    var parts := SplitN(id, 3);
    if |parts| == 3 {
      assert parts == [parts[0], parts[1], parts[2]];
      ThreeParts(parts[0], parts[1], parts[2]);
    }
  }

  /** Splitting takes a first part off where the first colon is. */
  lemma SplitFirst(a: string, b: string, n: nat)
    requires ':' !in a && n > 1
    ensures SplitN(a + ":" + b, n) == [a] + SplitN(b, n - 1)
  {
    var s := a + ":" + b;
    ColonFirst(a, b);
    assert s[..|a|] == a && s[|a| + 1..] == b;
  }

  lemma Nested(t: string, colon: string, r: string, n: string)
    ensures t + colon + r + colon + n == t + colon + (r + colon + n)
  {
  }

  lemma SplitMade(t: string, r: string, n: string)
    requires ':' !in t && ':' !in r
    ensures SplitEntitlementID(NewEntitlementID(t, r, n)) == Ok((t, r, n))
  {
    var id, rest := NewEntitlementID(t, r, n), r + ":" + n;
    SplitFirst(t, rest, 3);
    SplitFirst(r, n, 2);
    Nested(t, ":", r, n);
    assert SplitN(id, 3) == [t] + ([r] + SplitN(n, 1)) && SplitN(n, 1) == [n];
    assert [t] + ([r] + [n]) == [t, r, n];
  }

  /** Splitting gives back what an ID was made of if and only if type and resource have no colon. */
  lemma SplitInverts(t: string, r: string, n: string)
    ensures SplitEntitlementID(NewEntitlementID(t, r, n)) == Ok((t, r, n)) <==> ':' !in t && ':' !in r
  {
    if ':' !in t && ':' !in r { SplitMade(t, r, n); } else { PartsHaveNoColon(NewEntitlementID(t, r, n)); }
  }

  lemma ColonsRegrouped(t: string, r: string, r': string, n: string, colon: string)
    ensures t + colon + (r + colon + r') + colon + n == t + colon + r + colon + (r' + colon + n)
  {
  }

  /** With a colon in the resource, its rest is taken for the start of the name. */
  lemma ColonInResource(t: string, r: string, r': string, n: string)
    requires ':' !in t && ':' !in r
    ensures SplitEntitlementID(NewEntitlementID(t, r + ":" + r', n)) == Ok((t, r, r' + ":" + n))
  {
    SplitMade(t, r, r' + ":" + n);
    ColonsRegrouped(t, r, r', n, ":");
  }

  lemma PartsHaveNoColon(id: string)
    ensures SplitEntitlementID(id).Ok? ==>
              ':' !in SplitEntitlementID(id).value.0 && ':' !in SplitEntitlementID(id).value.1
  {
    var parts := SplitN(id, 3);
    if |parts| == 3 {
      var rest := id[ColonIn(id) + 1..];
      assert parts == [id[..ColonIn(id)]] + SplitN(rest, 2);
      assert SplitN(rest, 2)[0] == rest[..ColonIn(rest)];
    }
  }

  // ---- Configuration ------------------------------------------------------

  datatype Queries = Queries(noTransaction: bool, queries: seq<string>)

  datatype EntitlementProvisioning =
    EntitlementProvisioning(grant: Option<Queries>, revoke: Option<Queries>, vars: map<string, string>)

  datatype StaticEntitlement = StaticEntitlement(id: string, provisioning: Option<EntitlementProvisioning>)

  /** `dynamic` lists the provisioning of the dynamic entitlement mappings, if there is an entitlements query. */
  datatype Config = Config(statics: seq<StaticEntitlement>, dynamic: Option<seq<Option<EntitlementProvisioning>>>)

  /** Whether a static entry answers for an entitlement. */
  predicate Answers(e: StaticEntitlement, id: string) { e.id == id && e.provisioning.Some? }

  /** The first static entry from i on that answers. */
  function FirstStatic(statics: seq<StaticEntitlement>, id: string, i: nat): (r: nat)
    requires i <= |statics|
    ensures i <= r <= |statics| && forall j :: i <= j < r ==> !Answers(statics[j], id)
    ensures r < |statics| ==> Answers(statics[r], id)
    decreases |statics| - i
  {
    if i == |statics| || Answers(statics[i], id) then i else FirstStatic(statics, id, i + 1)
  }

  /** The first dynamic mapping from i on that has provisioning. */
  function FirstDynamic(mappings: seq<Option<EntitlementProvisioning>>, i: nat): (r: nat)
    requires i <= |mappings|
    ensures i <= r <= |mappings| && forall j :: i <= j < r ==> mappings[j].None?
    ensures r < |mappings| ==> mappings[r].Some?
    decreases |mappings| - i
  {
    if i == |mappings| || mappings[i].Some? then i else FirstDynamic(mappings, i + 1)
  }

  /** What provides the provisioning of an entitlement. */
  datatype Provider = Static(i: nat) | Dynamic(i: nat)

  function ProviderOf(config: Config, id: string): Option<Provider> {
    var i := FirstStatic(config.statics, id, 0);
    if i < |config.statics| then Some(Static(i))
    else if config.dynamic.None? then None
    else
      var j := FirstDynamic(config.dynamic.value, 0);
      if j < |config.dynamic.value| then Some(Dynamic(j)) else None
  }

  function ProvisioningOf(config: Config, id: string): (r: Option<EntitlementProvisioning>)
    ensures r.Some? <==> ProviderOf(config, id).Some?
  {
    match ProviderOf(config, id)
    case None => None
    case Some(Static(i)) => config.statics[i].provisioning
    case Some(Dynamic(i)) => config.dynamic.value[i]
  }

  /** No static entry answers for the entitlement. */
  ghost predicate NoStatic(config: Config, id: string) {
    forall j :: 0 <= j < |config.statics| ==> !Answers(config.statics[j], id)
  }

  /** No dynamic mapping has provisioning. */
  ghost predicate NoDynamic(config: Config) {
    config.dynamic.Some? ==> forall j :: 0 <= j < |config.dynamic.value| ==> config.dynamic.value[j].None?
  }

  /** The i-th static entry is the first that answers. */
  ghost predicate IsFirstStatic(config: Config, id: string, i: nat)
    requires i < |config.statics|
  {
    var e := config.statics[i];
    e.id == id && e.provisioning.Some? && forall j :: 0 <= j < i ==> !Answers(config.statics[j], id)
  }

  /** No static entry answers, and the i-th dynamic mapping is the first that has provisioning. */
  ghost predicate IsFirstDynamic(config: Config, id: string, i: nat)
    requires config.dynamic.Some? && i < |config.dynamic.value|
  {
    NoStatic(config, id) && config.dynamic.value[i].Some?
    && forall j :: 0 <= j < i ==> config.dynamic.value[j].None?
  }

  /** What is found is the provisioning of that entry, or of that mapping, itself. */
  lemma ProvisioningIs(config: Config, id: string)
    ensures var r := ProvisioningOf(config, id);
            (forall i :: 0 <= i < |config.statics| && IsFirstStatic(config, id, i) ==>
               r == config.statics[i].provisioning)
            && (config.dynamic.Some? ==>
                  forall i :: 0 <= i < |config.dynamic.value| && IsFirstDynamic(config, id, i) ==>
                    r == config.dynamic.value[i])
            && (r.None? <==> NoStatic(config, id) && NoDynamic(config))
  {
    forall i | 0 <= i < |config.statics| && IsFirstStatic(config, id, i)
      ensures ProvisioningOf(config, id) == config.statics[i].provisioning
    {
      StaticProvides(config, id, i);
    }
    if config.dynamic.Some? {
      forall i | 0 <= i < |config.dynamic.value| && IsFirstDynamic(config, id, i)
        ensures ProvisioningOf(config, id) == config.dynamic.value[i]
      {
        DynamicProvides(config, id, i);
      }
    }
    NothingProvides(config, id);
  }

  method GetProvisioningConfig(config: Config, id: string) returns (r: Option<EntitlementProvisioning>)
    ensures r == ProvisioningOf(config, id)
    ensures forall i :: 0 <= i < |config.statics| && IsFirstStatic(config, id, i) ==>
              r == config.statics[i].provisioning
    ensures config.dynamic.Some? ==>
              forall i :: 0 <= i < |config.dynamic.value| && IsFirstDynamic(config, id, i) ==>
                r == config.dynamic.value[i]
    ensures r.None? <==> NoStatic(config, id) && NoDynamic(config)
  {
    ProvisioningIs(config, id);
    for i := 0 to |config.statics|
      invariant FirstStatic(config.statics, id, 0) == FirstStatic(config.statics, id, i)
    {
      var e := config.statics[i];
      if e.id != id {
        continue;
      }
      if e.provisioning.Some? {
        return e.provisioning;
      }
    }
    if config.dynamic.Some? {
      var mappings := config.dynamic.value;
      for i := 0 to |mappings|
        invariant FirstDynamic(mappings, 0) == FirstDynamic(mappings, i)
      {
        if mappings[i].Some? {
          return mappings[i];
        }
      }
    }
    return None;
  }

  /** A static entry provides if and only if it is the first that answers, */
  lemma StaticProvides(config: Config, id: string, i: nat)
    requires i < |config.statics|
    ensures ProviderOf(config, id) == Some(Static(i)) <==>
            IsFirstStatic(config, id, i)
  {
    var first := FirstStatic(config.statics, id, 0);
    if first < i { assert Answers(config.statics[first], id); }
  }

  /**
   * a dynamic mapping if and only if no static entry answers and it is the first that has provisioning: so an
   * entitlement made by a mapping gets that mapping's own provisioning exactly under this condition,
   */
  lemma DynamicProvides(config: Config, id: string, i: nat)
    requires config.dynamic.Some? && i < |config.dynamic.value|
    ensures ProviderOf(config, id) == Some(Dynamic(i)) <==> IsFirstDynamic(config, id, i)
  {
    var mappings := config.dynamic.value;
    var first := FirstDynamic(mappings, 0);
    if first < i { assert mappings[first].Some?; }
    if NoStatic(config, id) { assert FirstStatic(config.statics, id, 0) == |config.statics|; }
  }

  /** and nothing if and only if none of them can. */
  lemma NothingProvides(config: Config, id: string)
    ensures ProviderOf(config, id).None? <==>
            NoStatic(config, id) && NoDynamic(config)
  {
    if NoStatic(config, id) { assert FirstStatic(config.statics, id, 0) == |config.statics|; }
  }

  /** The name of an entitlement that no static entry answers for plays no part. */
  lemma DynamicIgnoresName(config: Config, id: string, id': string)
    requires NoStatic(config, id) && NoStatic(config, id')
    ensures ProviderOf(config, id) == ProviderOf(config, id')
  {
    assert FirstStatic(config.statics, id, 0) == FirstStatic(config.statics, id', 0) == |config.statics|;
  }

  // ---- Granting and revoking ----------------------------------------------

  datatype ResourceId = ResourceId(resourceType: string, resource: string)

  /** What variable expressions are evaluated over. */
  datatype Inputs = Inputs(principal: ResourceId, resourceType: string, resource: string, entitlement: string)

  /** Expression evaluation. */
  type Evaluate = (string, Inputs) -> Result<Value, Error>

  datatype Action = Grant | Revoke

  /** The inputs for a principal and an entitlement ID. */
  function ProvisioningInputs(principal: Option<ResourceId>, entitlement: string): (r: Result<Inputs, Error>)
    ensures r.Ok? <==> principal.Some? && Colons(entitlement) >= 2
    ensures r.Ok? ==>
              var Inputs(p, t, s, n) := r.value;
              Some(p) == principal && NewEntitlementID(t, s, n) == entitlement
  {
    SplitExactly(entitlement);
    if principal.None? then Err(MissingPrincipal)
    else match SplitEntitlementID(entitlement)
      case Err(e) => Err(e)
      case Ok((t, r, n)) => Ok(Inputs(principal.value, t, r, n))
  }

  predicate AllEvaluate(evaluate: Evaluate, vars: map<string, string>, inputs: Inputs) {
    forall k :: k in vars ==> evaluate(vars[k], inputs).Ok?
  }

  function Evaluated(evaluate: Evaluate, vars: map<string, string>, inputs: Inputs): map<string, Value>
    requires AllEvaluate(evaluate, vars, inputs)
  {
    map k | k in vars :: evaluate(vars[k], inputs).value
  }

  /** The variables for the queries, or an error if any of the expressions fails; their order does not matter. */
  method PrepareProvisioningVars(evaluate: Evaluate, vars: map<string, string>, principal: Option<ResourceId>,
                                 entitlement: string)
    returns (r: Result<map<string, Value>, Error>)
    ensures var inputs := ProvisioningInputs(principal, entitlement);
            if inputs.Err? then r == Err(inputs.error)
            else if AllEvaluate(evaluate, vars, inputs.value) then
              r == Ok(Evaluated(evaluate, vars, inputs.value)) && r.value.Keys == vars.Keys
              && forall k :: k in vars ==> evaluate(vars[k], inputs.value) == Ok(r.value[k])
            else r.Err? && exists k :: k in vars && evaluate(vars[k], inputs.value) == Err(r.error)
  {
    var inputs := ProvisioningInputs(principal, entitlement);
    if inputs.Err? {
      return Err(inputs.error);
    }
    var ret: map<string, Value> := map[];
    var todo := vars.Keys;
    while todo != {}
      invariant todo <= vars.Keys && ret.Keys == vars.Keys - todo
      invariant forall k :: k in ret ==> evaluate(vars[k], inputs.value) == Ok(ret[k])
      decreases todo
    {
      var k :| k in todo;
      var out := evaluate(vars[k], inputs.value);
      if out.Err? {
        assert k in vars && evaluate(vars[k], inputs.value) == Err(out.error);
        return Err(out.error);
      }
      ret := ret[k := out.value];
      todo := todo - {k};
    }
    assert ret == Evaluated(evaluate, vars, inputs.value);
    return Ok(ret);
  }

  /** The queries an action on an entitlement runs, and the expressions of their variables. */
  datatype Plan = Plan(queries: Queries, vars: map<string, string>)

  function PlanOf(config: Config, action: Action, entitlement: string): Result<Plan, Error> {
    match SplitEntitlementID(entitlement)
    case Err(e) => Err(e)
    case Ok((_, _, name)) =>
      match ProvisioningOf(config, name)
      case None => Err(NotProvisioned)
      case Some(p) =>
        var queries := if action.Grant? then p.grant else p.revoke;
        if queries.None? || queries.value.queries == [] then Err(NoQueries) else Ok(Plan(queries.value, p.vars))
  }

  /**
   * `Grant` and `Revoke`. Nothing reaches the database unless the ID resolves to queries and all variables evaluate;
   * then these queries are run, in a transaction unless the configuration says otherwise.
   */
  method Provision<S>(db: Database<S>, engine: Engine, config: Config, evaluate: Evaluate, action: Action,
                      principal: Option<ResourceId>, entitlement: string)
    returns (err: Option<Error>, ghost events: seq<Event>)
    requires db.work.None?
    modifies db
    ensures db.work.None? && db.log == old(db.log) + events
    ensures var plan, inputs := PlanOf(config, action, entitlement), ProvisioningInputs(principal, entitlement);
            if plan.Ok? && inputs.Ok? && AllEvaluate(evaluate, plan.value.vars, inputs.value) then
              var vars := Evaluated(evaluate, plan.value.vars, inputs.value);
              Outcome(Advance(db.exec, engine, vars, plan.value.queries.queries, old(db.durable)),
                      !plan.value.queries.noTransaction, old(db.durable), db.durable, err, events)
            else err.Some? && events == [] && db.durable == old(db.durable)
    ensures var plan, inputs := PlanOf(config, action, entitlement), ProvisioningInputs(principal, entitlement);
            (plan.Err? ==> err == Some(plan.error))
            && (plan.Ok? && inputs.Err? ==> err == Some(inputs.error))
            && (plan.Ok? && inputs.Ok? && !AllEvaluate(evaluate, plan.value.vars, inputs.value) ==>
                  err.Some? && exists k :: k in plan.value.vars
                                           && evaluate(plan.value.vars[k], inputs.value) == Err(err.value))
  {
    events := [];
    var split := SplitEntitlementID(entitlement);
    if split.Err? {
      return Some(split.error), [];
    }
    var provisioning := GetProvisioningConfig(config, split.value.2);
    if provisioning.None? {
      return Some(NotProvisioned), [];
    }
    var queries := if action.Grant? then provisioning.value.grant else provisioning.value.revoke;
    if queries.None? {
      return Some(NoQueries), [];
    }
    if |queries.value.queries| == 0 {
      return Some(NoQueries), [];
    }
    var vars := PrepareProvisioningVars(evaluate, provisioning.value.vars, principal, entitlement);
    if vars.Err? {
      return Some(vars.error), [];
    }
    var useTx := true;
    if queries.value.noTransaction {
      useTx := false;
    }
    err, events := RunProvisioningQueries(db, engine, queries.value.queries, vars.value, useTx);
  }

  /** What an action plans with some provisioning: its own queries, with the variables of the provisioning. */
  predicate Plans(plan: Result<Plan, Error>, p: EntitlementProvisioning, action: Action) {
    match (action, p.grant, p.revoke)
    case (Grant, Some(q), _) => if q.queries == [] then plan == Err(NoQueries) else plan == Ok(Plan(q, p.vars))
    case (Revoke, _, Some(q)) => if q.queries == [] then plan == Err(NoQueries) else plan == Ok(Plan(q, p.vars))
    case _ => plan == Err(NoQueries)
  }

  /** Without two colons in the ID, or without provisioning for its name, there is no plan. */
  lemma NothingPlanned(config: Config, action: Action, id: string)
    ensures Colons(id) < 2 <==> PlanOf(config, action, id) == Err(BadEntitlementId)
    ensures Colons(id) >= 2 ==>
              var name := SplitEntitlementID(id).value.2;
              PlanOf(config, action, id) == Err(NotProvisioned) <==> NoStatic(config, name) && NoDynamic(config)
  {
    SplitExactly(id);
    if Colons(id) >= 2 { NothingProvides(config, SplitEntitlementID(id).value.2); }
  }

  /**
   * The ID that a static entitlement was listed under leads back to it: for a resource without colons, granting uses
   * the grant queries of the first static entry of that name that has provisioning, and revoking its revoke queries.
   */
  lemma StaticIdResolves(config: Config, action: Action, t: string, r: string, i: nat)
    requires ':' !in t && ':' !in r && i < |config.statics| && IsFirstStatic(config, config.statics[i].id, i)
    ensures var e := config.statics[i];
            Plans(PlanOf(config, action, t + ":" + r + ":" + e.id), e.provisioning.value, action)
  {
    SplitMade(t, r, config.statics[i].id);
    StaticProvides(config, config.statics[i].id, i);
  }

  /** And any other name leads to the first dynamic mapping that has provisioning. */
  lemma DynamicIdResolves(config: Config, action: Action, t: string, r: string, name: string, i: nat)
    requires ':' !in t && ':' !in r && config.dynamic.Some? && i < |config.dynamic.value|
    requires IsFirstDynamic(config, name, i)
    ensures Plans(PlanOf(config, action, t + ":" + r + ":" + name), config.dynamic.value[i].value, action)
  {
    SplitMade(t, r, name);
    DynamicProvides(config, name, i);
  }
}

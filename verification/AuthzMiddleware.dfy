/** `middleware/authz.ts` as written: one enforcer, cleared and refilled by every request, and the decision
    cache. Deciding a role is proved to be a run of the system in `AuthzInterleaving`. */
module AuthzMiddleware {
  import opened Tokens
  import opened Authz
  import opened AuthzInterleaving
  import opened Wrappers

  ghost predicate Reaches(s: Shared, s': Shared) {
    exists es :: Runs(s, es, s')
  }

  lemma EnclosedRun(s: Shared, id: Id, v: Visit, mid: Shared)
    requires id !in s.visits && v.step.Entered? && LoadsTo(Entering(s, id, v), mid) && id in mid.visits
    ensures Reaches(s, mid) && Reaches(s, Apply(mid, Finish(id)))
  {
    var es :| Runs(Entering(s, id, v), es, mid) && OnlyLoads(es);
    var begin, end := Verify(id, v.sub, v.roles, v.path, v.method_), Apply(mid, Finish(id));
    assert ([begin] + es)[1..] == es && Apply(s, begin) == Entering(s, id, v);
    assert Runs(s, [begin] + es, mid);
    assert Runs(end, [], end) && Runs(mid, [Finish(id)], end);
    RunsConcat(s, [begin] + es, mid, [Finish(id)], end);
  }

  /** What the system remembers once this request is over, with the enforcer holding this. */
  function After(s: Shared, v: Visit, groups: set<Grouping>): Shared {
    s.(seen := s.seen + RowsFor(s.table, v.roles), carried := s.carried + GroupingsFor(v.sub, v.roles),
       enforcer := Enforcer(RowsFor(s.table, v.roles), groups))
  }

  /** A whole request that nobody interrupts, and its `enforce` on the way. */
  lemma RequestRun(s: Shared, id: Id, v: Visit, kept: set<Grouping>) returns (mid: Shared)
    requires id !in s.visits && v.step.Entered? && kept <= s.enforcer.groups
    ensures var s' := After(s, v, kept + GroupingsFor(v.sub, v.roles));
            && Reaches(s, mid) && Enforcing(mid, id) && mid.enforcer == s'.enforcer
            && mid.visits[id] == v.(step := Joining([]))
            && Apply(mid, Finish(id)) == s' && Reaches(s, s')
  {
    mid := LoadRun(Entering(s, id, v), id, v, kept);
    EnclosedRun(s, id, v, mid);
    assert mid.visits - {id} == s.visits;
  }

  // ----- The middleware ----------------------------------------------------------------------------

  class Middleware {
    const logic: Logic
    var tables: Tables
    var cache: DecisionCache
    var policies: set<Policy>
    var groups: set<Grouping>
    // History: the policy rows read, and the (subject, role) pairs of the verified tokens.
    ghost var seen: set<Policy>
    ghost var carried: set<Grouping>

    constructor (logic: Logic, tables: Tables)
      ensures this.logic == logic && this.tables == tables && cache == map[] && policies == {} && groups == {}
      ensures AuthzInterleaving.Initial(View(map[]))
    {
      this.logic, this.tables := logic, tables;
      cache, policies, groups, seen, carried := map[], {}, {}, {}, {};
    }

    /** The shared state, with these other requests under way. */
    ghost function View(visits: map<Id, Visit>): Shared
      reads this
    {
      Shared(PolicySet(tables), Enforcer(policies, groups), visits, seen, carried)
    }

    /** `clearPolicy` drops the policies; it may keep any of the groupings. */
    method ClearPolicy()
      modifies this`policies, this`groups
      ensures policies == {} && groups <= old(groups)
    {
      var kept :| kept <= groups;
      policies, groups := {}, kept;
    }

    method LoadPolicies(roles: seq<Name>)
      modifies this`policies, this`groups
      ensures policies == RowsFor(PolicySet(tables), roles) && groups <= old(groups)
      ensures forall p :: p in policies <==> p in tables.policies && p.role in roles
    {
      ClearPolicy();
      var rows := tables.policies;
      for i := 0 to |rows|
        invariant policies == set p | p in rows[..i] && p.role in roles
        invariant groups <= old(groups)
      {
        if rows[i].role in roles {
          policies := policies + {rows[i]};
        }
      }
    }

    method AddGroupings(sub: Name, roles: seq<Name>)
      modifies this`groups
      ensures groups == old(groups) + GroupingsFor(sub, roles)
      ensures forall g :: g in groups <==> g in old(groups) || (g.member == sub && g.of in roles)
    {
      for i := 0 to |roles|
        invariant groups == old(groups) + GroupingsFor(sub, roles[..i])
      {
        assert roles[..i + 1] == roles[..i] + [roles[i]];
        groups := groups + {Grouping(sub, roles[i])};
      }
      assert roles[..|roles|] == roles;
    }

    method CheckAbacRules(attrs: Attrs) returns (passed: bool)
      ensures passed <==> AbacPasses(logic, tables.rules, attrs)
      ensures passed <==> forall i :: 0 <= i < |tables.rules| ==> logic(tables.rules[i], attrs)
    {
      for i := 0 to |tables.rules|
        invariant forall k :: 0 <= k < i ==> logic(tables.rules[k], attrs)
      {
        if !logic(tables.rules[i], attrs) {
          return false;
        }
      }
      passed := true;
    }

    /** The shared enforcer's answer for this request, with whatever earlier requests left in it: what the
        system answers at the end `mid` of the request's run. */
    method Authorize(payload: Payload, path: Path, method_: Method, ghost visits: map<Id, Visit>)
      returns (roleAllowed: bool, ghost id: Id, ghost mid: Shared)
      modifies this`policies, this`groups, this`seen, this`carried
      ensures roleAllowed <==> RoleAllows(PolicySet(tables), payload.roles, path, method_)
      ensures roleAllowed <==>
                exists i :: 0 <= i < |payload.roles| && Policy(payload.roles[i], path, method_) in tables.policies
      ensures Reaches(old(View(visits)), mid) && Enforcing(mid, id) && roleAllowed == Allows(mid, id)
      ensures View(visits) == Apply(mid, Finish(id)) && Reaches(old(View(visits)), View(visits))
    {
      id := Above(visits.Keys);
      ghost var start := View(visits);
      LoadPolicies(payload.roles);
      ghost var left := groups;
      AddGroupings(payload.sub, payload.roles);
      EnforcerRefinesRule(PolicySet(tables), left, payload.sub, payload.roles, path, method_);
      roleAllowed := Enforces(Enforcer(policies, groups), payload.sub, path, method_);
      ghost var v := Visit(payload.sub, payload.roles, path, method_, Entered);
      mid := RequestRun(start, id, v, left);
      seen, carried := mid.seen, mid.carried;
    }

    /** The evaluation of a verified request that no cache entry decides; `completed` when it comes to the
        write of its decision and that answers. */
    method EvaluateRequest(payload: Payload, path: Path, method_: Method, a: Answers, ghost visits: map<Id, Visit>)
      returns (d: Decision, completed: bool, allow: bool)
      modifies this`policies, this`groups, this`seen, this`carried
      ensures Reaches(old(View(visits)), View(visits))
      ensures var role := RoleAllows(PolicySet(tables), payload.roles, path, method_);
              var rules := AbacPasses(logic, tables.rules, payload.attrs);
              && (completed <==> a.policies && (role ==> a.rules) && a.write)
              && (completed ==> (allow <==> role && rules))
              && (d == Next <==> completed && role && rules)
              && (d == Deny("abac") <==> completed && role && !rules)
              && (d == Deny("rbac") <==> !completed || !role)
    {
      assert Runs(View(visits), [], View(visits));
      assert "abac" != "rbac";
      if !a.policies { return Deny("rbac"), false, false; }
      var roleAllowed, _, _ := Authorize(payload, path, method_, visits);
      if !roleAllowed { return Deny("rbac"), a.write, false; }
      if !a.rules { return Deny("rbac"), false, false; }
      allow := CheckAbacRules(payload.attrs);
      completed := a.write;
      d := if !completed then Deny("rbac") else if allow then Next else Deny("abac");
    }

    /** `authzMiddleware`. A request passes exactly when its path is open to all; or its token is verified
        and a live cache entry for token id, method and path says so; or its token is verified, no such
        entry is found, some role of it has the row, all rules accept its attributes, and every store that
        is called answers. A denial names the first of these that fails. What an evaluation decides is
        cached for sixty seconds, an exception as a denial. Nothing depends on what the enforcer held. */
    method Handle(r: Request, now: nat, a: Answers, ghost visits: map<Id, Visit>) returns (d: Decision)
      modifies this`cache, this`policies, this`groups, this`seen, this`carried
      ensures r.path == "/healthz" ==> d == Next
      ensures r.path != "/healthz" && r.auth.Missing? ==> d == Deny("jwt_missing")
      ensures r.path != "/healthz" && r.auth.Rejected? ==> d == Deny("jwt_invalid")
      ensures r.path == "/healthz" || !r.auth.Verified? ==> cache == old(cache)
      ensures r.path != "/healthz" && r.auth.Verified? ==>
                var p := r.auth.payload;
                var key := Key(p.jti, r.method_, r.path);
                var hit := a.cacheRead && key in old(cache) && now < old(cache)[key].expires;
                var role := exists i :: 0 <= i < |p.roles| && Policy(p.roles[i], r.path, r.method_) in tables.policies;
                var rules := forall i :: 0 <= i < |tables.rules| ==> logic(tables.rules[i], p.attrs);
                && (hit ==> d == (if old(cache)[key].allow then Next else Deny("cache")) && cache == old(cache))
                && (!hit ==>
                      && (d == Next <==> role && rules && a.policies && a.rules && a.write)
                      && (d == Deny("abac") <==> role && !rules && a.policies && a.rules && a.write)
                      && (d == Deny("rbac") <==> !a.policies || !role || !a.rules || !a.write)
                      && cache == (if a.policies && (role ==> a.rules) && a.write
                                   then old(cache)[key := Entry(role && rules, now + 60_000)]
                                   else if a.handlerWrite then old(cache)[key := Entry(false, now + 60_000)]
                                   else old(cache)))
      ensures d == Decide(logic, tables, old(cache), r, now, a)
      ensures cache == CacheAfter(logic, tables, old(cache), r, now, a)
      ensures Reaches(old(View(visits)), View(visits))
    {
      assert Runs(View(visits), [], View(visits));
      if r.path == "/healthz" { return Next; }
      if r.auth.Missing? { return Deny("jwt_missing"); }
      if r.auth.Rejected? { return Deny("jwt_invalid"); }
      DecisionsAre(logic, tables, cache, r, now, a);
      var payload, key := r.auth.payload, KeyOf(r);
      if a.cacheRead && Hit(cache, key, now) {
        return if cache[key].allow then Next else Deny("cache");
      }
      var completed, allow;
      d, completed, allow := EvaluateRequest(payload, r.path, r.method_, a, visits);
      if completed {
        cache := cache[key := Entry(allow, now + CACHE_MS)];
      } else if a.handlerWrite {
        cache := cache[key := Entry(false, now + CACHE_MS)];
      }
    }
  }
}

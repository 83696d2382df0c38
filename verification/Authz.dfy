/** `middleware/authz.ts`: one global enforcer that every request clears and refills, and a decision
    cache in Redis. The policy library is modelled as a set of policies and a set of groupings, with
    grouping reflexive and transitive. */
module Authz {
  import opened Tokens

  type Name = string
  type Method = string
  type Path = string
  type Rule = string
  type Attrs = map<string, string>

  datatype Policy = Policy(role: Name, path: Path, method_: Method)

  datatype Grouping = Grouping(member: Name, of: Name)

  datatype Enforcer = Enforcer(policies: set<Policy>, groups: set<Grouping>)

  // ----- The enforcer ----------------------------------------------------------------------------

  function Members(groups: set<Grouping>): set<Name> {
    set g | g in groups :: g.of
  }

  /** Everything the names in `from` belong to, directly or through other names. */
  function Reach(groups: set<Grouping>, from: set<Name>): set<Name>
    decreases |Members(groups) - from|
  {
    var next := from + set g | g in groups && g.member in from :: g.of;
    if next <= from then from
    else
      Progress(groups, from, next);
      Reach(groups, next)
  }

  lemma Progress(groups: set<Grouping>, from: set<Name>, next: set<Name>)
    requires from <= next && !(next <= from) && next <= from + Members(groups)
    ensures |Members(groups) - next| < |Members(groups) - from|
  {
    var x :| x in next && x !in from;
    assert x in Members(groups) - from && x !in Members(groups) - next;
    assert Members(groups) - next < Members(groups) - from;
    SmallerSet(Members(groups) - next, Members(groups) - from);
  }

  lemma SmallerSet(s: set<Name>, t: set<Name>)
    requires s < t
    ensures |s| < |t|
  {
    assert t == s + (t - s);
    assert |t - s| > 0;
  }

  predicate Enforces(e: Enforcer, sub: Name, path: Path, method_: Method) {
    exists p :: p in e.policies && p.path == path && p.method_ == method_ && p.role in Reach(e.groups, {sub})
  }

  /** The rule the middleware is for: some role of this token has a stored policy for the request. */
  predicate RoleAllows(table: set<Policy>, roles: seq<Name>, path: Path, method_: Method) {
    exists i :: 0 <= i < |roles| && Policy(roles[i], path, method_) in table
  }

  /** `role_policies` rows for these roles. */
  function RowsFor(table: set<Policy>, roles: seq<Name>): set<Policy> {
    set p | p in table && p.role in roles
  }

  function GroupingsFor(sub: Name, roles: seq<Name>): set<Grouping> {
    set r | r in roles :: Grouping(sub, r)
  }

  lemma {:induction false} ReachGrows(groups: set<Grouping>, from: set<Name>)
    ensures from <= Reach(groups, from)
    decreases |Members(groups) - from|
  {
    var next := from + set g | g in groups && g.member in from :: g.of;
    if !(next <= from) {
      Progress(groups, from, next);
      ReachGrows(groups, next);
    }
  }

  lemma {:induction false} DirectReach(groups: set<Grouping>, from: set<Name>, g: Grouping)
    requires g in groups && g.member in from
    ensures g.of in Reach(groups, from)
  {
    var next := from + set h | h in groups && h.member in from :: h.of;
    assert g.of in next;
    if !(next <= from) {
      ReachGrows(groups, next);
    }
  }

  predicate Closed(groups: set<Grouping>, names: set<Name>) {
    forall g :: g in groups && g.member in names ==> g.of in names
  }

  /** What the names belong to is the least set that holds them and follows every grouping. */
  lemma {:induction false} ReachIsLeast(groups: set<Grouping>, from: set<Name>)
    ensures from <= Reach(groups, from) && Closed(groups, Reach(groups, from))
    ensures forall names :: from <= names && Closed(groups, names) ==> Reach(groups, from) <= names
    decreases |Members(groups) - from|
  {
    var next := from + set g | g in groups && g.member in from :: g.of;
    if next <= from {
      forall g | g in groups && g.member in from ensures g.of in from { assert g.of in next; }
    } else {
      Progress(groups, from, next);
      ReachIsLeast(groups, next);
    }
  }

  /** The shared enforcer refines the stateless rule. Whatever groupings earlier requests left behind,
      and however they chain, once a request has loaded the policies of its own roles and added its own
      groupings, it is allowed exactly when the rule says so. */
  lemma EnforcerRefinesRule(table: set<Policy>, left: set<Grouping>, sub: Name, roles: seq<Name>, path: Path,
                            method_: Method)
    ensures Enforces(Enforcer(RowsFor(table, roles), left + GroupingsFor(sub, roles)), sub, path, method_) <==>
            RoleAllows(table, roles, path, method_)
  {
    var e := Enforcer(RowsFor(table, roles), left + GroupingsFor(sub, roles));
    if RoleAllows(table, roles, path, method_) {
      var i :| 0 <= i < |roles| && Policy(roles[i], path, method_) in table;
      DirectReach(e.groups, {sub}, Grouping(sub, roles[i]));
      assert Policy(roles[i], path, method_) in e.policies;
    }
    if Enforces(e, sub, path, method_) {
      var p :| p in e.policies && p.path == path && p.method_ == method_;
      var i :| 0 <= i < |roles| && roles[i] == p.role;
    }
  }

  // ----- One request, as a function of the stores --------------------------------------------------

  const CACHE_MS: nat := 60_000

  /** The JSON-logic interpreter: whether a rule accepts these attributes. */
  type Logic = (Rule, Attrs) -> bool

  datatype Tables = Tables(policies: seq<Policy>, rules: seq<Rule>)

  datatype Auth = Missing | Rejected | Verified(payload: Payload)

  datatype Request = Request(path: Path, method_: Method, auth: Auth)

  datatype Decision = Next | Deny(reason: string)

  /** Cache keys `authz:<jti>:<method>:<path>`. */
  datatype Key = Key(jti: string, method_: Method, path: Path)

  datatype Entry = Entry(allow: bool, expires: nat)

  type DecisionCache = map<Key, Entry>

  /** Which calls to a store answer: the cache read, both table reads, the cache write that follows a
      decision, and the one in the exception handler. */
  datatype Answers = Answers(cacheRead: bool, policies: bool, rules: bool, write: bool, handlerWrite: bool)

  predicate AbacPasses(logic: Logic, rules: seq<Rule>, attrs: Attrs) {
    forall i :: 0 <= i < |rules| ==> logic(rules[i], attrs)
  }

  function PolicySet(t: Tables): set<Policy> {
    set p | p in t.policies
  }

  /** The whole rule, on the tables as they are: some role has the policy, and every attribute rule passes. */
  predicate FullyAllows(logic: Logic, t: Tables, p: Payload, path: Path, method_: Method) {
    RoleAllows(PolicySet(t), p.roles, path, method_) && AbacPasses(logic, t.rules, p.attrs)
  }

  function KeyOf(r: Request): Key
    requires r.auth.Verified?
  {
    Key(r.auth.payload.jti, r.method_, r.path)
  }

  predicate Hit(cache: DecisionCache, key: Key, now: nat) {
    key in cache && now < cache[key].expires
  }

  /** The request is decided by the tables rather than by the path, the header or the cache. */
  predicate Evaluated(cache: DecisionCache, r: Request, now: nat, a: Answers) {
    r.path != "/healthz" && r.auth.Verified? && !(a.cacheRead && Hit(cache, KeyOf(r), now))
  }

  function Evaluate(logic: Logic, t: Tables, r: Request, a: Answers): Decision
    requires r.auth.Verified?
  {
    var p := r.auth.payload;
    if !a.policies || !RoleAllows(PolicySet(t), p.roles, r.path, r.method_) || !a.rules then Deny("rbac")
    else if !AbacPasses(logic, t.rules, p.attrs) then Deny(if a.write then "abac" else "rbac")
    else if a.write then Next
    else Deny("rbac")
  }

  function Decide(logic: Logic, t: Tables, cache: DecisionCache, r: Request, now: nat, a: Answers): Decision {
    if r.path == "/healthz" then Next
    else if r.auth.Missing? then Deny("jwt_missing")
    else if r.auth.Rejected? then Deny("jwt_invalid")
    else if !Evaluated(cache, r, now, a) then (if cache[KeyOf(r)].allow then Next else Deny("cache"))
    else Evaluate(logic, t, r, a)
  }

  /** An evaluation that runs to its end writes its decision; one that throws has the handler write a denial. */
  function CacheAfter(logic: Logic, t: Tables, cache: DecisionCache, r: Request, now: nat, a: Answers): DecisionCache {
    if !Evaluated(cache, r, now, a) then cache
    else
      var p := r.auth.payload;
      var roleAllowed := RoleAllows(PolicySet(t), p.roles, r.path, r.method_);
      var completes := a.policies && (roleAllowed ==> a.rules) && a.write;
      if completes then cache[KeyOf(r) := Entry(FullyAllows(logic, t, p, r.path, r.method_), now + CACHE_MS)]
      else if a.handlerWrite then cache[KeyOf(r) := Entry(false, now + CACHE_MS)]
      else cache
  }

  /** An evaluation allows exactly when the whole rule does and every call it needs answers: no failure
      of a store and no exception can turn into an allow. What it caches is its own decision, for a minute. */
  lemma EvaluationAllowsIff(logic: Logic, t: Tables, cache: DecisionCache, r: Request, now: nat, a: Answers)
    requires Evaluated(cache, r, now, a)
    ensures Decide(logic, t, cache, r, now, a) == Next <==>
            FullyAllows(logic, t, r.auth.payload, r.path, r.method_) && a.policies && a.rules && a.write
    ensures var cache' := CacheAfter(logic, t, cache, r, now, a);
            KeyOf(r) in cache' && cache' != cache && cache'[KeyOf(r)].allow ==>
                  Decide(logic, t, cache, r, now, a) == Next
    ensures a.handlerWrite || (a.policies && a.rules && a.write) ==>
              CacheAfter(logic, t, cache, r, now, a) ==
              cache[KeyOf(r) := Entry(Decide(logic, t, cache, r, now, a) == Next, now + 60_000)]
    ensures forall k :: k != KeyOf(r) ==>
              (k in CacheAfter(logic, t, cache, r, now, a) <==> k in cache)
              && (k in cache ==> CacheAfter(logic, t, cache, r, now, a)[k] == cache[k])
  {}

  /** Who passes, what each denial means, and what is cached, in terms of tables and cache alone. */
  lemma DecisionsAre(logic: Logic, t: Tables, cache: DecisionCache, r: Request, now: nat, a: Answers)
    requires r.path != "/healthz" && r.auth.Verified?
    ensures var (d, cache') := (Decide(logic, t, cache, r, now, a), CacheAfter(logic, t, cache, r, now, a));
            var p := r.auth.payload;
            var key := Key(p.jti, r.method_, r.path);
            var hit := a.cacheRead && key in cache && now < cache[key].expires;
            var role := exists i :: 0 <= i < |p.roles| && Policy(p.roles[i], r.path, r.method_) in t.policies;
            var rules := forall i :: 0 <= i < |t.rules| ==> logic(t.rules[i], p.attrs);
            && (hit ==> d == (if cache[key].allow then Next else Deny("cache")) && cache' == cache)
            && (!hit ==>
                  && (d == Next <==> role && rules && a.policies && a.rules && a.write)
                  && (d == Deny("abac") <==> role && !rules && a.policies && a.rules && a.write)
                  && (d == Deny("rbac") <==> !a.policies || !role || !a.rules || !a.write)
                  && cache' == (if a.policies && (role ==> a.rules) && a.write
                                then cache[key := Entry(role && rules, now + 60_000)]
                                else if a.handlerWrite then cache[key := Entry(false, now + 60_000)]
                                else cache))
  {
    assert "abac" != "rbac";
  }

  // ----- The decision cache over whole runs --------------------------------------------------------

  /** One evaluation that allowed, with the tables it saw. */
  datatype Evaluation = Evaluation(at: nat, payload: Payload, path: Path, method_: Method, tables: Tables)

  datatype Gate = Gate(now: nat, tables: Tables, cache: DecisionCache, allowed: seq<Evaluation>)

  datatype GateEvent = Tick(ms: nat) | Edit(tables: Tables) | Serve(request: Request, answers: Answers)

  function GateStep(logic: Logic, g: Gate, e: GateEvent): Gate {
    match e
    case Tick(ms) => g.(now := g.now + ms)
    case Edit(tables) => g.(tables := tables)
    case Serve(r, a) =>
      g.(cache := CacheAfter(logic, g.tables, g.cache, r, g.now, a),
         allowed := if Evaluated(g.cache, r, g.now, a) && Decide(logic, g.tables, g.cache, r, g.now, a) == Next
                    then g.allowed + [Evaluation(g.now, r.auth.payload, r.path, r.method_, g.tables)]
                    else g.allowed)
  }

  function GateRun(logic: Logic, g: Gate, es: seq<GateEvent>): Gate {
    if es == [] then g else GateStep(logic, GateRun(logic, g, es[..|es| - 1]), es[|es| - 1])
  }

  predicate Backs(logic: Logic, ev: Evaluation, key: Key, expires: nat) {
    && Key(ev.payload.jti, ev.method_, ev.path) == key && expires == ev.at + CACHE_MS
    && FullyAllows(logic, ev.tables, ev.payload, ev.path, ev.method_)
  }

  ghost predicate CacheBacked(logic: Logic, g: Gate) {
    && (forall k :: k in g.cache && g.cache[k].allow ==>
          exists i :: 0 <= i < |g.allowed| && Backs(logic, g.allowed[i], k, g.cache[k].expires))
    && (forall i :: 0 <= i < |g.allowed| ==> g.allowed[i].at <= g.now)
  }

  lemma CacheStaysBacked(logic: Logic, g: Gate, e: GateEvent)
    requires CacheBacked(logic, g)
    ensures CacheBacked(logic, GateStep(logic, g, e))
  {
    var g' := GateStep(logic, g, e);
    forall k | k in g'.cache && g'.cache[k].allow
      ensures exists i :: 0 <= i < |g'.allowed| && Backs(logic, g'.allowed[i], k, g'.cache[k].expires)
    {
      if k in g.cache && g'.cache[k] == g.cache[k] {
        var i :| 0 <= i < |g.allowed| && Backs(logic, g.allowed[i], k, g.cache[k].expires);
        assert g'.allowed[i] == g.allowed[i];
      } else {
        EvaluationAllowsIff(logic, g.tables, g.cache, e.request, g.now, e.answers);
        assert Backs(logic, g'.allowed[|g.allowed|], k, g'.cache[k].expires);
      }
    }
  }

  lemma {:induction false} RunStaysBacked(logic: Logic, g: Gate, es: seq<GateEvent>)
    requires CacheBacked(logic, g)
    ensures CacheBacked(logic, GateRun(logic, g, es))
    decreases |es|
  {
    if es == [] {
    } else {
      RunStaysBacked(logic, g, es[..|es| - 1]);
      CacheStaysBacked(logic, GateRun(logic, g, es[..|es| - 1]), es[|es| - 1]);
    }
  }

  /** An allow served from the cache was fully evaluated, and allowed, less than sixty seconds before,
      for the same token id, method and path. */
  lemma CachedAllowIsRecent(logic: Logic, g0: Gate, es: seq<GateEvent>, r: Request, a: Answers) returns (i: nat)
    requires g0.cache == map[] && g0.allowed == []
    requires r.path != "/healthz" && r.auth.Verified?
    requires var g := GateRun(logic, g0, es);
             !Evaluated(g.cache, r, g.now, a) && Decide(logic, g.tables, g.cache, r, g.now, a) == Next
    ensures var g := GateRun(logic, g0, es);
            && i < |g.allowed| && g.allowed[i].at <= g.now < g.allowed[i].at + 60_000
            && Key(g.allowed[i].payload.jti, g.allowed[i].method_, g.allowed[i].path) == KeyOf(r)
            && FullyAllows(logic, g.allowed[i].tables, g.allowed[i].payload, r.path, r.method_)
  {
    RunStaysBacked(logic, g0, es);
    var g := GateRun(logic, g0, es);
    i :| 0 <= i < |g.allowed| && Backs(logic, g.allowed[i], KeyOf(r), g.cache[KeyOf(r)].expires);
  }

  /** If the tables have not changed since the evaluations of the last minute and a token id carries one
      payload, a cached allow is what a fresh evaluation would say. */
  lemma CachedAllowIsFresh(logic: Logic, g0: Gate, es: seq<GateEvent>, r: Request, a: Answers)
    requires g0.cache == map[] && g0.allowed == []
    requires r.path != "/healthz" && r.auth.Verified?
    requires var g := GateRun(logic, g0, es);
             && !Evaluated(g.cache, r, g.now, a) && Decide(logic, g.tables, g.cache, r, g.now, a) == Next
             && (forall i :: 0 <= i < |g.allowed| && g.now < g.allowed[i].at + CACHE_MS ==>
                  g.allowed[i].tables == g.tables)
             && (forall i :: 0 <= i < |g.allowed| && g.allowed[i].payload.jti == r.auth.payload.jti ==>
                   g.allowed[i].payload == r.auth.payload)
    ensures FullyAllows(logic, GateRun(logic, g0, es).tables, r.auth.payload, r.path, r.method_)
  {
    var i := CachedAllowIsRecent(logic, g0, es, r, a);
  }
}

/** The decision cache in front of the shared enforcer, with requests interleaved at their awaits. */
module AuthzCaching {
  import opened Tokens
  import opened Authz
  import I = AuthzInterleaving

  type Id = I.Id

  /** After the cache read a request loads the enforcer (its visit in `I`), has its role allowed, has
      decided, and is answered. Answered ones keep their place, so ids are never used again. */
  datatype Stage = Asked | Loading | RoleAllowed | Decided(allow: bool) | Answered(allow: bool)

  datatype Query = Query(payload: Payload, path: Path, method_: Method)

  datatype Ask = Ask(query: Query, stage: Stage)

  datatype Site = Site(now: nat, rules: seq<Rule>, cache: DecisionCache, shared: I.Shared, asks: map<Id, Ask>)

  datatype Event =
    | Wait(ms: nat)
    | EditRules(rules: seq<Rule>)
    | EditPolicies(table: set<Policy>)
    | Arrive(id: Id, query: Query)
    | CacheHit(id: Id)
    | CacheMiss(id: Id)
    | Load(step: I.Event)
    | Enforce(id: Id)
    | CheckRules(id: Id)
    | Store(id: Id)
    | Throw(id: Id, stored: bool)

  function KeyOf(q: Query): Key {
    Key(q.payload.jti, q.method_, q.path)
  }

  predicate At(s: Site, id: Id, stage: Stage) {
    id in s.asks && s.asks[id].stage == stage
  }

  predicate Enabled(s: Site, e: Event) {
    match e
    case Wait(_) => true
    case EditRules(_) => true
    case EditPolicies(_) => true
    case Arrive(id, _) => id !in s.asks
    case CacheHit(id) => At(s, id, Asked) && Hit(s.cache, KeyOf(s.asks[id].query), s.now)
    // A cache read that fails is ignored, so any read may miss.
    case CacheMiss(id) => At(s, id, Asked) && id !in s.shared.visits
    case Load(step) => I.Loads(step) && I.Enabled(s.shared, step)
    case Enforce(id) => At(s, id, Loading) && I.Enforcing(s.shared, id)
    case CheckRules(id) => At(s, id, RoleAllowed)
    case Store(id) => id in s.asks && s.asks[id].stage.Decided?
    case Throw(id, _) => id in s.asks && !s.asks[id].stage.Asked? && !s.asks[id].stage.Answered?
  }

  /** `Verify` and `Finish` in `I` begin and end the visit. */
  function Apply(logic: Logic, s: Site, e: Event): Site
    requires Enabled(s, e)
  {
    match e
    case Wait(ms) => s.(now := s.now + ms)
    case EditRules(rules) => s.(rules := rules)
    case EditPolicies(table) => s.(shared := I.Apply(s.shared, I.EditTable(table)))
    case Arrive(id, query) => s.(asks := s.asks[id := Ask(query, Asked)])
    case CacheHit(id) => To(s, id, Answered(s.cache[KeyOf(s.asks[id].query)].allow))
    case CacheMiss(id) =>
      var q := s.asks[id].query;
      To(s, id, Loading).(shared := I.Apply(s.shared, I.Verify(id, q.payload.sub, q.payload.roles, q.path, q.method_)))
    case Load(step) => s.(shared := I.Apply(s.shared, step))
    case Enforce(id) =>
      To(s, id, if I.Allows(s.shared, id) then RoleAllowed else Decided(false)).(
        shared := I.Apply(s.shared, I.Finish(id)))
    case CheckRules(id) => To(s, id, Decided(AbacPasses(logic, s.rules, s.asks[id].query.payload.attrs)))
    case Store(id) =>
      var allow := s.asks[id].stage.allow;
      To(s, id, Answered(allow)).(cache := s.cache[KeyOf(s.asks[id].query) := Entry(allow, s.now + CACHE_MS)])
    case Throw(id, stored) =>
      To(s, id, Answered(false)).(
        cache := if stored then s.cache[KeyOf(s.asks[id].query) := Entry(false, s.now + CACHE_MS)] else s.cache,
        shared := if id in s.shared.visits then I.Apply(s.shared, I.Finish(id)) else s.shared)
  }

  function To(s: Site, id: Id, stage: Stage): Site
    requires id in s.asks
  {
    s.(asks := s.asks[id := s.asks[id].(stage := stage)])
  }

  predicate Runs(logic: Logic, s: Site, es: seq<Event>, s': Site)
    decreases |es|
  {
    if es == [] then s' == s
    else Enabled(s, es[0]) && Runs(logic, Apply(logic, s, es[0]), es[1..], s')
  }

  ghost predicate Initial(s: Site) {
    s.cache == map[] && s.asks == map[] && I.Initial(s.shared)
  }

  // ----- The run of the enforcer inside ----------------------------------------------------------------

  /** What an event is for the enforcer. */
  function Inner(s: Site, e: Event): seq<I.Event>
    requires Enabled(s, e)
  {
    match e
    case EditPolicies(table) => [I.EditTable(table)]
    case CacheMiss(id) =>
      var q := s.asks[id].query;
      [I.Verify(id, q.payload.sub, q.payload.roles, q.path, q.method_)]
    case Load(step) => [step]
    case Enforce(id) => [I.Finish(id)]
    case Throw(id, _) => if id in s.shared.visits then [I.Finish(id)] else []
    case _ => []
  }

  lemma InnerStep(logic: Logic, s: Site, e: Event)
    requires Enabled(s, e)
    ensures I.Runs(s.shared, Inner(s, e), Apply(logic, s, e).shared)
  {
    if Inner(s, e) != [] {
      assert Inner(s, e)[1..] == [];
    }
  }

  lemma {:induction false} InnerRun(logic: Logic, s: Site, es: seq<Event>, s': Site) returns (inner: seq<I.Event>)
    requires Runs(logic, s, es, s')
    ensures I.Runs(s.shared, inner, s'.shared)
    decreases |es|
  {
    inner := [];
    if es == [] {
    } else {
      var next := Apply(logic, s, es[0]);
      InnerStep(logic, s, es[0]);
      var rest := InnerRun(logic, next, es[1..], s');
      I.RunsConcat(s.shared, Inner(s, es[0]), next.shared, rest, s'.shared);
      inner := Inner(s, es[0]) + rest;
    }
  }

  // ----- Who a visit belongs to ------------------------------------------------------------------------

  predicate Owns(a: Ask, v: I.Visit) {
    a.stage.Loading? && v.sub == a.query.payload.sub && v.path == a.query.path && v.method_ == a.query.method_
  }

  ghost predicate Owned(s: Site) {
    forall id :: id in s.shared.visits ==> id in s.asks && Owns(s.asks[id], s.shared.visits[id])
  }

  lemma OwnedKept(logic: Logic, s: Site, e: Event)
    requires Owned(s) && Enabled(s, e)
    ensures Owned(Apply(logic, s, e))
  {}

  lemma {:induction false} AsksStay(logic: Logic, s: Site, es: seq<Event>, s': Site)
    requires Runs(logic, s, es, s') && Owned(s)
    ensures Owned(s') && s.shared.seen <= s'.shared.seen && s.shared.carried <= s'.shared.carried
    ensures forall id :: id in s.asks ==> id in s'.asks && s'.asks[id].query == s.asks[id].query
    decreases |es|
  {
    if es == [] {
    } else {
      OwnedKept(logic, s, es[0]);
      AsksStay(logic, Apply(logic, s, es[0]), es[1..], s');
    }
  }

  // ----- When something became so ----------------------------------------------------------------------

  /** Event `k` of the run comes in state `mid`. */
  ghost predicate Reached(logic: Logic, s0: Site, es: seq<Event>, k: nat, mid: Site) {
    k < |es| && Runs(logic, s0, es[..k], mid) && Enabled(mid, es[k])
  }

  lemma {:induction false} Becomes(logic: Logic, s0: Site, es: seq<Event>, s: Site, p: Site -> bool)
    returns (k: nat, mid: Site)
    requires Runs(logic, s0, es, s) && !p(s0) && p(s)
    ensures Reached(logic, s0, es, k, mid) && !p(mid) && p(Apply(logic, mid, es[k]))
    ensures Runs(logic, Apply(logic, mid, es[k]), es[k + 1..], s)
    decreases |es|
  {
    k, mid := 0, s0;
    if es != [] {
      var next := Apply(logic, s0, es[0]);
      if !p(next) {
        k, mid := Becomes(logic, next, es[1..], s, p);
        assert es[..k + 1][0] == es[0] && es[..k + 1][1..] == es[1..][..k];
        assert es[1..][k + 1..] == es[k + 2..];
        k := k + 1;
      }
    }
  }

  /** No subject of a token is also the name of a role some verified token carries. */
  predicate NamesApart(s: Site) {
    && I.SubjectsAreNotRoles(s.shared.carried)
    && forall id, g :: id in s.asks && g in s.shared.carried ==> g.of != s.asks[id].query.payload.sub
  }

  /** What the state in which event `k` came shares with the final one. */
  lemma Since(logic: Logic, s0: Site, es: seq<Event>, s: Site, k: nat, mid: Site)
    requires Initial(s0) && Reached(logic, s0, es, k, mid) && Runs(logic, Apply(logic, mid, es[k]), es[k + 1..], s)
    requires NamesApart(s)
    ensures Owned(mid) && NamesApart(mid)
    ensures forall id :: id in mid.asks ==> id in s.asks && s.asks[id].query == mid.asks[id].query
  {
    AsksStay(logic, s0, es[..k], mid);
    var rest := es[k..];
    assert rest[0] == es[k] && rest[1..] == es[k + 1..] && Runs(logic, mid, rest, s);
    AsksStay(logic, mid, rest, s);
  }

  // ----- What is behind an allow -----------------------------------------------------------------------

  /** Some request read this policy row, and it then stood in the table. */
  ghost predicate RowRead(logic: Logic, s0: Site, es: seq<Event>, p: Policy) {
    exists k: nat, mid :: Reached(logic, s0, es, k, mid) && es[k].Load? && es[k].step.ReadRows? && p in mid.shared.table
  }

  /** Some request carried a verified token of this subject with this role. */
  ghost predicate RoleVerified(logic: Logic, s0: Site, es: seq<Event>, sub: Name, role: Name) {
    exists k: nat, mid :: Reached(logic, s0, es, k, mid) && es[k].CacheMiss? && Carries(mid, es[k].id, sub, role)
  }

  predicate Carries(s: Site, id: Id, sub: Name, role: Name) {
    id in s.asks && s.asks[id].query.payload.sub == sub && role in s.asks[id].query.payload.roles
  }

  /** A policy row for this path and method, of a role some verified token of this subject carried. */
  ghost predicate RoleBacked(logic: Logic, s0: Site, es: seq<Event>, q: Query) {
    exists p: Policy :: p.path == q.path && p.method_ == q.method_ && RowRead(logic, s0, es, p)
                        && RoleVerified(logic, s0, es, q.payload.sub, p.role)
  }

  /** `enforce` allowed the request, and what had happened until then backs that. */
  ghost predicate EnforceBacked(logic: Logic, s0: Site, es: seq<Event>, id: Id, q: Query) {
    exists k: nat, mid :: && Reached(logic, s0, es, k, mid) && es[k] == Enforce(id)
                          && I.Allows(mid.shared, id) && RoleBacked(logic, s0, es[..k], q)
  }

  /** After that the attribute rules it read all accepted its attributes. */
  ghost predicate RulesPassed(logic: Logic, s0: Site, es: seq<Event>, id: Id, q: Query) {
    exists k: nat, mid :: && Reached(logic, s0, es, k, mid) && es[k] == CheckRules(id)
                          && AbacPasses(logic, mid.rules, q.payload.attrs)
                          && EnforceBacked(logic, s0, es[..k], id, q)
  }

  /** After that it cached its allow, to lapse then. */
  ghost predicate AllowStored(logic: Logic, s0: Site, es: seq<Event>, id: Id, q: Query, expires: nat) {
    exists k: nat, mid :: && Reached(logic, s0, es, k, mid) && es[k] == Store(id) && expires == mid.now + 60_000
                          && RulesPassed(logic, s0, es[..k], id, q)
  }

  lemma SeenStep(logic: Logic, s: Site, e: Event, p: Policy)
    requires Enabled(s, e) && p !in s.shared.seen && p in Apply(logic, s, e).shared.seen
    ensures e.Load? && e.step.ReadRows? && p in s.shared.table
  {}

  lemma CarriedStep(logic: Logic, s: Site, e: Event, g: Grouping)
    requires Enabled(s, e) && g !in s.shared.carried && g in Apply(logic, s, e).shared.carried
    ensures e.CacheMiss? && Carries(s, e.id, g.member, g.of)
  {}

  lemma RoleAllowedStep(logic: Logic, s: Site, e: Event, id: Id)
    requires Enabled(s, e) && !At(s, id, RoleAllowed) && At(Apply(logic, s, e), id, RoleAllowed)
    ensures e == Enforce(id) && id in s.asks && I.Enforcing(s.shared, id) && I.Allows(s.shared, id)
  {}

  lemma DecidedStep(logic: Logic, s: Site, e: Event, id: Id)
    requires Enabled(s, e) && !At(s, id, Decided(true)) && At(Apply(logic, s, e), id, Decided(true))
    ensures e == CheckRules(id) && At(s, id, RoleAllowed) && AbacPasses(logic, s.rules, s.asks[id].query.payload.attrs)
  {}

  lemma CachedStep(logic: Logic, s: Site, e: Event, key: Key, entry: Entry)
    requires Enabled(s, e) && !(key in s.cache && s.cache[key] == entry) && entry.allow
    requires key in Apply(logic, s, e).cache && Apply(logic, s, e).cache[key] == entry
    ensures e.Store? && At(s, e.id, Decided(true)) && KeyOf(s.asks[e.id].query) == key
    ensures entry.expires == s.now + CACHE_MS
  {}

  lemma AnsweredStep(logic: Logic, s: Site, e: Event, id: Id)
    requires Enabled(s, e) && !At(s, id, Answered(true)) && At(Apply(logic, s, e), id, Answered(true))
    ensures id in s.asks && ((e == Store(id) && At(s, id, Decided(true))) || e == CacheHit(id))
    ensures e.CacheHit? ==> Hit(s.cache, KeyOf(s.asks[id].query), s.now) && s.cache[KeyOf(s.asks[id].query)].allow
  {}

  lemma SeenWasRead(logic: Logic, s0: Site, es: seq<Event>, s: Site, p: Policy)
    requires Initial(s0) && Runs(logic, s0, es, s) && p in s.shared.seen
    ensures RowRead(logic, s0, es, p)
  {
    var k, mid := Becomes(logic, s0, es, s, (t: Site) => p in t.shared.seen);
    SeenStep(logic, mid, es[k], p);
  }

  lemma CarriedWasVerified(logic: Logic, s0: Site, es: seq<Event>, s: Site, g: Grouping)
    requires Initial(s0) && Runs(logic, s0, es, s) && g in s.shared.carried
    ensures RoleVerified(logic, s0, es, g.member, g.of)
  {
    var k, mid := Becomes(logic, s0, es, s, (t: Site) => g in t.shared.carried);
    CarriedStep(logic, mid, es[k], g);
  }

  lemma AllowingPolicy(logic: Logic, s0: Site, es: seq<Event>, s: Site, id: Id) returns (p: Policy)
    requires Initial(s0) && Runs(logic, s0, es, s) && I.Enforcing(s.shared, id) && I.Allows(s.shared, id)
    requires NamesApart(s) && Owned(s)
    ensures p.path == s.asks[id].query.path && p.method_ == s.asks[id].query.method_ && p in s.shared.seen
    ensures Grouping(s.asks[id].query.payload.sub, p.role) in s.shared.carried
  {
    var inner := InnerRun(logic, s0, es, s);
    var v := s.shared.visits[id];
    I.EnforceInterleavedIff(s0.shared, inner, s.shared, id);
    I.RunKeepsInv(s0.shared, inner, s.shared);
    p :| p in s.shared.enforcer.policies && p.path == v.path && p.method_ == v.method_
         && Grouping(v.sub, p.role) in s.shared.enforcer.groups;
  }

  lemma EnforceKnows(logic: Logic, s0: Site, es: seq<Event>, s: Site, id: Id)
    requires Initial(s0) && Runs(logic, s0, es, s) && I.Enforcing(s.shared, id) && I.Allows(s.shared, id)
    requires NamesApart(s) && Owned(s)
    ensures RoleBacked(logic, s0, es, s.asks[id].query)
  {
    var p := AllowingPolicy(logic, s0, es, s, id);
    SeenWasRead(logic, s0, es, s, p);
    CarriedWasVerified(logic, s0, es, s, Grouping(s.asks[id].query.payload.sub, p.role));
  }

  lemma RoleAllowedKnows(logic: Logic, s0: Site, es: seq<Event>, s: Site, id: Id)
    requires Initial(s0) && Runs(logic, s0, es, s) && At(s, id, RoleAllowed) && NamesApart(s)
    ensures EnforceBacked(logic, s0, es, id, s.asks[id].query)
  {
    var k, mid := Becomes(logic, s0, es, s, (t: Site) => At(t, id, RoleAllowed));
    RoleAllowedStep(logic, mid, es[k], id);
    Since(logic, s0, es, s, k, mid);
    EnforceKnows(logic, s0, es[..k], mid, id);
  }

  lemma DecidedKnows(logic: Logic, s0: Site, es: seq<Event>, s: Site, id: Id)
    requires Initial(s0) && Runs(logic, s0, es, s) && At(s, id, Decided(true)) && NamesApart(s)
    ensures RulesPassed(logic, s0, es, id, s.asks[id].query)
  {
    var k, mid := Becomes(logic, s0, es, s, (t: Site) => At(t, id, Decided(true)));
    DecidedStep(logic, mid, es[k], id);
    Since(logic, s0, es, s, k, mid);
    RoleAllowedKnows(logic, s0, es[..k], mid, id);
  }

  /** A cached allow, in any interleaving, was stored sixty seconds before it lapses by a request with the
      same token id, method and path that was fully evaluated: it called `enforce` after some request had
      read a policy row for path and method, then in the table, of a role that a verified token of its
      subject carried; and all attribute rules it read then accepted its attributes. */
  lemma CachedAllowIsBacked(logic: Logic, s0: Site, es: seq<Event>, s: Site, key: Key) returns (author: Id)
    requires Initial(s0) && Runs(logic, s0, es, s) && NamesApart(s)
    requires key in s.cache && s.cache[key].allow
    ensures author in s.asks && KeyOf(s.asks[author].query) == key
    ensures AllowStored(logic, s0, es, author, s.asks[author].query, s.cache[key].expires)
  {
    var entry := s.cache[key];
    var k, mid := Becomes(logic, s0, es, s, (t: Site) => key in t.cache && t.cache[key] == entry);
    author := es[k].id;
    CachedStep(logic, mid, es[k], key, entry);
    Since(logic, s0, es, s, k, mid);
    DecidedKnows(logic, s0, es[..k], mid, author);
  }

  /** So whoever is let through, in any interleaving, either passed such an evaluation itself or was
      answered from the cache, less than sixty seconds after one of the same token id, method and path. */
  lemma LetThroughIsBacked(logic: Logic, s0: Site, es: seq<Event>, s: Site, id: Id)
    returns (k: nat, mid: Site, author: Id, expires: nat)
    requires Initial(s0) && Runs(logic, s0, es, s) && At(s, id, Answered(true)) && NamesApart(s)
    ensures Reached(logic, s0, es, k, mid) && author in mid.asks
    ensures KeyOf(mid.asks[author].query) == KeyOf(s.asks[id].query)
    ensures || (es[k] == Store(id) && author == id && RulesPassed(logic, s0, es[..k], id, mid.asks[id].query))
            || (es[k] == CacheHit(id) && mid.now < expires
                && AllowStored(logic, s0, es[..k], author, mid.asks[author].query, expires))
  {
    k, mid := Becomes(logic, s0, es, s, (t: Site) => At(t, id, Answered(true)));
    AnsweredStep(logic, mid, es[k], id);
    Since(logic, s0, es, s, k, mid);
    author, expires := id, 0;
    if es[k].Store? {
      DecidedKnows(logic, s0, es[..k], mid, id);
    } else {
      var key := KeyOf(mid.asks[id].query);
      expires := mid.cache[key].expires;
      author := CachedAllowIsBacked(logic, s0, es[..k], mid, key);
    }
  }

  // ----- One request that nobody interrupts --------------------------------------------------------------

  ghost predicate Reaches(logic: Logic, s: Site, s': Site) {
    exists es :: Runs(logic, s, es, s')
  }

  lemma {:induction false} RunsConcat(logic: Logic, s: Site, es: seq<Event>, s': Site, fs: seq<Event>, s'': Site)
    requires Runs(logic, s, es, s') && Runs(logic, s', fs, s'')
    ensures Runs(logic, s, es + fs, s'')
    decreases |es|
  {
    if es == [] {
      assert es + fs == fs;
    } else {
      RunsConcat(logic, Apply(logic, s, es[0]), es[1..], s', fs, s'');
      assert (es + fs)[1..] == es[1..] + fs;
    }
  }

  lemma ReachesStep(logic: Logic, start: Site, s: Site, e: Event, s': Site)
    requires Reaches(logic, start, s) && Enabled(s, e) && s' == Apply(logic, s, e)
    ensures Reaches(logic, start, s')
  {
    var es :| Runs(logic, start, es, s);
    assert Runs(logic, s', [], s') && Runs(logic, s, [e], s');
    RunsConcat(logic, start, es, s, [e], s');
  }

  lemma {:induction false} LoadsLift(logic: Logic, start: Site, s: Site, es: seq<I.Event>, shared: I.Shared)
    requires Reaches(logic, start, s) && I.Runs(s.shared, es, shared) && I.OnlyLoads(es)
    ensures Reaches(logic, start, s.(shared := shared))
    decreases |es|
  {
    if es == [] {
    } else {
      var next := s.(shared := I.Apply(s.shared, es[0]));
      ReachesStep(logic, start, s, Load(es[0]), next);
      LoadsLift(logic, start, next, es[1..], shared);
    }
  }

  /** The request up to its `enforce`. */
  lemma LoadingRun(logic: Logic, start: Site, s: Site, id: Id, q: Query) returns (mid: Site)
    requires Reaches(logic, start, s) && id in s.asks && s.asks[id] == Ask(q, Asked) && id !in s.shared.visits
    ensures Reaches(logic, start, mid) && mid == s.(asks := s.asks[id := Ask(q, Loading)], shared := mid.shared)
    ensures I.Enforcing(mid.shared, id) && mid.shared.table == s.shared.table
    ensures mid.shared.visits - {id} == s.shared.visits
    ensures I.Allows(mid.shared, id) <==> RoleAllows(s.shared.table, q.payload.roles, q.path, q.method_)
  {
    var v := I.Visit(q.payload.sub, q.payload.roles, q.path, q.method_, I.Entered);
    var entered := s.(asks := s.asks[id := Ask(q, Loading)], shared := I.Entering(s.shared, id, v));
    ReachesStep(logic, start, s, CacheMiss(id), entered);
    var loaded := I.LoadRun(entered.shared, id, v, {});
    var es :| I.Runs(entered.shared, es, loaded) && I.OnlyLoads(es);
    LoadsLift(logic, start, entered, es, loaded);
    EnforcerRefinesRule(s.shared.table, {}, v.sub, v.roles, v.path, v.method_);
    mid := entered.(shared := loaded);
  }

  /** What a request that nobody interrupts leaves behind. */
  ghost predicate Served(logic: Logic, s: Site, id: Id, q: Query, t: Tables, a: Answers, s': Site) {
    var r := Request(q.path, q.method_, Verified(q.payload));
    && s'.cache == CacheAfter(logic, t, s.cache, r, s.now, a)
    && At(s', id, Answered(Decide(logic, t, s.cache, r, s.now, a) == Next))
  }

  /** From `enforce` to the answer. */
  lemma DecisionRun(logic: Logic, start: Site, s: Site, id: Id, q: Query, t: Tables, a: Answers) returns (s': Site)
    requires Reaches(logic, start, s) && s.rules == t.rules && q.path != "/healthz" && a.policies
    requires !(a.cacheRead && Hit(s.cache, KeyOf(q), s.now)) && id in s.asks
    requires s.asks[id] == Ask(q, if RoleAllows(PolicySet(t), q.payload.roles, q.path, q.method_) then RoleAllowed
                                  else Decided(false))
    ensures Reaches(logic, start, s') && Served(logic, s, id, q, t, a, s')
  {
    var decided := s;
    if s.asks[id].stage.RoleAllowed? && a.rules {
      decided := Apply(logic, s, CheckRules(id));
      ReachesStep(logic, start, s, CheckRules(id), decided);
    }
    var last := if decided.asks[id].stage.Decided? && a.write then Store(id) else Throw(id, a.handlerWrite);
    s' := Apply(logic, decided, last);
    ReachesStep(logic, start, decided, last, s');
  }

  lemma EvaluationRun(logic: Logic, start: Site, s: Site, id: Id, q: Query, t: Tables, a: Answers) returns (s': Site)
    requires Reaches(logic, start, s) && id in s.asks && s.asks[id] == Ask(q, Asked) && id !in s.shared.visits
    requires s.rules == t.rules && s.shared.table == PolicySet(t) && q.path != "/healthz"
    requires !(a.cacheRead && Hit(s.cache, KeyOf(q), s.now))
    ensures Reaches(logic, start, s') && Served(logic, s, id, q, t, a, s')
  {
    var mid := LoadingRun(logic, start, s, id, q);
    if !a.policies {
      s' := Apply(logic, mid, Throw(id, a.handlerWrite));
      ReachesStep(logic, start, mid, Throw(id, a.handlerWrite), s');
    } else {
      var enforced := Apply(logic, mid, Enforce(id));
      ReachesStep(logic, start, mid, Enforce(id), enforced);
      s' := DecisionRun(logic, start, enforced, id, q, t, a);
    }
  }

  /** A request that nobody interrupts is answered, and leaves the cache, as the functions for one request
      at a time say. */
  lemma ServeIsRun(logic: Logic, s: Site, id: Id, q: Query, t: Tables, a: Answers) returns (s': Site)
    requires id !in s.asks && id !in s.shared.visits
    requires s.rules == t.rules && s.shared.table == PolicySet(t) && q.path != "/healthz"
    ensures Reaches(logic, s, s') && Served(logic, s, id, q, t, a, s')
  {
    var asked := Apply(logic, s, Arrive(id, q));
    assert Runs(logic, s, [], s);
    ReachesStep(logic, s, s, Arrive(id, q), asked);
    if a.cacheRead && Hit(s.cache, KeyOf(q), s.now) {
      s' := Apply(logic, asked, CacheHit(id));
      ReachesStep(logic, s, asked, CacheHit(id), s');
    } else {
      s' := EvaluationRun(logic, s, asked, id, q, t, a);
    }
  }
}

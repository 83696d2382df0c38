/** The same middleware with requests interleaved at their awaits: every request works on the one
    enforcer, so another request may clear or refill it at any point. */
module AuthzInterleaving {
  import opened Authz

  type Id = nat

  /** A request that has verified its token, and how far it has come. */
  datatype Step =
    | Entered
    | HasRows(rows: set<Policy>)
    | Filling(rows: set<Policy>)
    | Joining(roles: seq<Name>)

  datatype Visit = Visit(sub: Name, roles: seq<Name>, path: Path, method_: Method, step: Step)

  /** `seen` and `carried` are history: every policy row any request read, and every (subject, role)
      of a verified token. */
  datatype Shared = Shared(
    table: set<Policy>,
    enforcer: Enforcer,
    visits: map<Id, Visit>,
    seen: set<Policy>,
    carried: set<Grouping>)

  datatype Event =
    | Verify(id: Id, sub: Name, roles: seq<Name>, path: Path, method_: Method)
    | EditTable(table: set<Policy>)
    | ReadRows(id: Id)
    | Clear(id: Id, kept: set<Grouping>)
    | AddPolicy(id: Id, row: Policy)
    | Filled(id: Id)
    | AddGrouping(id: Id, g: Grouping)
    | Finish(id: Id)

  predicate Enabled(s: Shared, e: Event) {
    match e
    case Verify(id, _, _, _, _) => id !in s.visits
    case EditTable(_) => true
    case ReadRows(id) => id in s.visits && s.visits[id].step.Entered?
    case Clear(id, kept) => id in s.visits && s.visits[id].step.HasRows? && kept <= s.enforcer.groups
    case AddPolicy(id, row) => id in s.visits && s.visits[id].step.Filling? && row in s.visits[id].step.rows
    case Filled(id) => id in s.visits && s.visits[id].step.Filling? && s.visits[id].step.rows == {}
    case AddGrouping(id, g) =>
      && id in s.visits && s.visits[id].step.Joining? && s.visits[id].step.roles != []
      && g == Grouping(s.visits[id].sub, s.visits[id].step.roles[0])
    case Finish(id) => id in s.visits
  }

  function Apply(s: Shared, e: Event): Shared
    requires Enabled(s, e)
  {
    match e
    case Verify(id, sub, roles, path, method_) =>
      s.(visits := s.visits[id := Visit(sub, roles, path, method_, Entered)],
         carried := s.carried + GroupingsFor(sub, roles))
    case EditTable(table) => s.(table := table)
    case ReadRows(id) =>
      var rows := RowsFor(s.table, s.visits[id].roles);
      s.(visits := s.visits[id := s.visits[id].(step := HasRows(rows))], seen := s.seen + rows)
    case Clear(id, kept) =>
      s.(enforcer := Enforcer({}, kept),
         visits := s.visits[id := s.visits[id].(step := Filling(s.visits[id].step.rows))])
    case AddPolicy(id, row) =>
      s.(enforcer := s.enforcer.(policies := s.enforcer.policies + {row}),
         visits := s.visits[id := s.visits[id].(step := Filling(s.visits[id].step.rows - {row}))])
    case Filled(id) =>
      s.(visits := s.visits[id := s.visits[id].(step := Joining(s.visits[id].roles))])
    case AddGrouping(id, g) =>
      var r := s.visits[id];
      s.(enforcer := s.enforcer.(groups := s.enforcer.groups + {g}),
         visits := s.visits[id := r.(step := Joining(r.step.roles[1..]))])
    case Finish(id) => s.(visits := s.visits - {id})
  }

  predicate Runs(s: Shared, es: seq<Event>, s': Shared)
    decreases |es|
  {
    if es == [] then s' == s
    else Enabled(s, es[0]) && Runs(Apply(s, es[0]), es[1..], s')
  }

  /** The request has done all its loading and calls `enforce`. */
  predicate Enforcing(s: Shared, id: Id) {
    id in s.visits && s.visits[id].step.Joining? && s.visits[id].step.roles == []
  }

  predicate Allows(s: Shared, id: Id)
    requires Enforcing(s, id)
  {
    Enforces(s.enforcer, s.visits[id].sub, s.visits[id].path, s.visits[id].method_)
  }

  ghost predicate Initial(s: Shared) {
    s.enforcer == Enforcer({}, {}) && s.visits == map[] && s.seen == {} && s.carried == {}
  }

  // ----- What interleaving cannot break ------------------------------------------------------------

  ghost predicate VisitOk(s: Shared, r: Visit) {
    && GroupingsFor(r.sub, r.roles) <= s.carried
    && (r.step.HasRows? || r.step.Filling? ==> r.step.rows <= s.seen)
    && (r.step.Joining? ==> forall i :: 0 <= i < |r.step.roles| ==> r.step.roles[i] in r.roles)
  }

  ghost predicate Inv(s: Shared) {
    && s.enforcer.policies <= s.seen && s.enforcer.groups <= s.carried
    && (forall id :: id in s.visits ==> VisitOk(s, s.visits[id]))
    && (forall p :: p in s.seen ==> exists g :: g in s.carried && g.of == p.role)
  }

  lemma StepKeepsInv(s: Shared, e: Event)
    requires Inv(s) && Enabled(s, e)
    ensures Inv(Apply(s, e))
  {
    var s' := Apply(s, e);
    forall r | VisitOk(s, r) ensures VisitOk(s', r) {}
    if e.AddGrouping? {
      var r := s.visits[e.id];
      assert VisitOk(s, r);
      assert Grouping(r.sub, r.step.roles[0]) in GroupingsFor(r.sub, r.roles);
    }
    if e.ReadRows? {
      var r := s.visits[e.id];
      assert VisitOk(s, r);
      forall p | p in RowsFor(s.table, r.roles) ensures exists g :: g in s.carried && g.of == p.role {
        assert Grouping(r.sub, p.role) in GroupingsFor(r.sub, r.roles);
      }
    }
  }

  lemma {:induction false} RunKeepsInv(s: Shared, es: seq<Event>, s': Shared)
    requires Inv(s) && Runs(s, es, s')
    ensures Inv(s')
    decreases |es|
  {
    if es == [] {
    } else {
      StepKeepsInv(s, es[0]);
      RunKeepsInv(Apply(s, es[0]), es[1..], s');
    }
  }

  /** No verified subject is also the name of a role some verified token carries. */
  predicate SubjectsAreNotRoles(carried: set<Grouping>) {
    forall g, h :: g in carried && h in carried ==> g.member != h.of
  }

  /** With subjects and roles apart, grouping never chains. */
  lemma ReachIsDirect(groups: set<Grouping>, carried: set<Grouping>, sub: Name)
    requires groups <= carried && SubjectsAreNotRoles(carried)
    ensures Reach(groups, {sub}) == {sub} + set g | g in groups && g.member == sub :: g.of
  {
    var next := {sub} + set g | g in groups && g.member in {sub} :: g.of;
    var all := {sub} + set g | g in groups && g.member == sub :: g.of;
    assert next == all;
    if !(next <= {sub}) {
      forall g | g in groups && g.member in next ensures g.of in next {
        assert forall h :: h in groups ==> h.of != g.member;
      }
      assert next + (set g | g in groups && g.member in next :: g.of) <= next;
      assert Reach(groups, next) == next;
    }
  }

  /** What `enforce` says in any interleaving: some policy now loaded, whichever request loaded it, is of
      a role some grouping now present gives the subject. */
  lemma EnforceInterleavedIff(s0: Shared, es: seq<Event>, s: Shared, id: Id)
    requires Initial(s0) && Runs(s0, es, s) && Enforcing(s, id)
    requires SubjectsAreNotRoles(s.carried) && forall g :: g in s.carried ==> g.of != s.visits[id].sub
    ensures var r := s.visits[id];
            Allows(s, id) <==>
              exists p :: && p in s.enforcer.policies && p.path == r.path && p.method_ == r.method_
                          && Grouping(r.sub, p.role) in s.enforcer.groups
  {
    RunKeepsInv(s0, es, s);
    ReachIsDirect(s.enforcer.groups, s.carried, s.visits[id].sub);
    assert forall p :: p in s.enforcer.policies ==> p.role != s.visits[id].sub;
  }

  /** `seen` holds only rows that stood in the table when some request read it. */
  lemma {:induction false} SeenWasStored(s0: Shared, es: seq<Event>, s: Shared, p: Policy) returns (k: nat, mid: Shared)
    requires Runs(s0, es, s) && p in s.seen && p !in s0.seen
    ensures k < |es| && Runs(s0, es[..k], mid) && es[k].ReadRows? && p in mid.table
    decreases |es|
  {
    k, mid := 0, s0;
    if es == [] {
    } else {
      var next := Apply(s0, es[0]);
      if p !in next.seen {
        k, mid := SeenWasStored(next, es[1..], s, p);
        assert es[..k + 1][0] == es[0] && es[..k + 1][1..] == es[1..][..k];
        k := k + 1;
      }
    }
  }

  /** `carried` holds only what the verified token of some request said. */
  lemma {:induction false} CarriedWasVerified(s0: Shared, es: seq<Event>, s: Shared, g: Grouping) returns (k: nat)
    requires Runs(s0, es, s) && g in s.carried && g !in s0.carried
    ensures k < |es| && es[k].Verify? && es[k].sub == g.member && g.of in es[k].roles
    decreases |es|
  {
    k := 0;
    if es == [] {
    } else {
      var next := Apply(s0, es[0]);
      if g !in next.carried {
        k := CarriedWasVerified(next, es[1..], s, g);
        k := k + 1;
      }
    }
  }

  /** So an allow, in any interleaving, is backed by a policy row for this path and method that stood in
      the table when some request read it, and by a role that a verified token of the same subject carried. */
  lemma AllowIsBacked(s0: Shared, es: seq<Event>, s: Shared, id: Id)
    returns (p: Policy, read: nat, mid: Shared, verified: nat)
    requires Initial(s0) && Runs(s0, es, s) && Enforcing(s, id) && Allows(s, id)
    requires SubjectsAreNotRoles(s.carried) && forall g :: g in s.carried ==> g.of != s.visits[id].sub
    ensures p.path == s.visits[id].path && p.method_ == s.visits[id].method_
    ensures read < |es| && Runs(s0, es[..read], mid) && es[read].ReadRows? && p in mid.table
    ensures verified < |es| && es[verified].Verify? && es[verified].sub == s.visits[id].sub
            && p.role in es[verified].roles
  {
    EnforceInterleavedIff(s0, es, s, id);
    RunKeepsInv(s0, es, s);
    p :| && p in s.enforcer.policies && p.path == s.visits[id].path && p.method_ == s.visits[id].method_
         && Grouping(s.visits[id].sub, p.role) in s.enforcer.groups;
    read, mid := SeenWasStored(s0, es, s, p);
    verified := CarriedWasVerified(s0, es, s, Grouping(s.visits[id].sub, p.role));
  }

  // ----- Exactly what decides the answer -------------------------------------------------------------

  predicate NoClear(es: seq<Event>) {
    forall k :: 0 <= k < |es| ==> !es[k].Clear?
  }

  function Added(es: seq<Event>): set<Policy> {
    set e | e in es && e.AddPolicy? :: e.row
  }

  function Grouped(es: seq<Event>): set<Grouping> {
    set e | e in es && e.AddGrouping? :: e.g
  }

  /** Without a clearing, the enforcer holds what it held and what the events add. */
  lemma {:induction false} Accumulates(s: Shared, es: seq<Event>, s': Shared)
    requires Runs(s, es, s') && NoClear(es)
    ensures s'.enforcer == Enforcer(s.enforcer.policies + Added(es), s.enforcer.groups + Grouped(es))
    decreases |es|
  {
    if es == [] {
    } else {
      Accumulates(Apply(s, es[0]), es[1..], s');
      assert es == [es[0]] + es[1..];
    }
  }

  lemma {:induction false} RunsSplit(s: Shared, es: seq<Event>, fs: seq<Event>, s': Shared) returns (mid: Shared)
    requires Runs(s, es + fs, s')
    ensures Runs(s, es, mid) && Runs(mid, fs, s')
    decreases |es|
  {
    if es == [] {
      mid := s;
      assert es + fs == fs;
    } else {
      assert (es + fs)[1..] == es[1..] + fs;
      mid := RunsSplit(Apply(s, es[0]), es[1..], fs, s');
    }
  }

  /** Whichever request it was that cleared last, the answer at `enforce` is decided by what its clearing
      kept and by the additions after it: it is an allow exactly when they hold a policy for this path
      and method of a role that a grouping among them gives this subject. */
  lemma AnswerIff(s0: Shared, before: seq<Event>, cleared: Event, after: seq<Event>, s: Shared, id: Id)
    requires Initial(s0) && Runs(s0, before + [cleared] + after, s) && cleared.Clear? && NoClear(after)
    requires Enforcing(s, id) && SubjectsAreNotRoles(s.carried)
    requires forall g :: g in s.carried ==> g.of != s.visits[id].sub
    ensures var r := s.visits[id];
            Allows(s, id) <==>
              exists p :: && p in Added(after) && p.path == r.path && p.method_ == r.method_
                          && Grouping(r.sub, p.role) in cleared.kept + Grouped(after)
  {
    EnforceInterleavedIff(s0, before + [cleared] + after, s, id);
    var mid := RunsSplit(s0, before + [cleared], after, s);
    var last := RunsSplit(s0, before, [cleared], mid);
    assert mid.enforcer == Enforcer({}, cleared.kept);
    Accumulates(mid, after, s);
  }

  // ----- When it is the rule's answer ----------------------------------------------------------------

  /** What a request has loaded since its own clearing, when nobody clears after it: of the rows it read,
      those not still to come; and the groupings of the roles it has joined. */
  ghost predicate Loaded(s: Shared, id: Id, rows: set<Policy>, v: Visit) {
    && id in s.visits && s.visits[id] == v.(step := s.visits[id].step)
    && match s.visits[id].step {
         case Filling(left) => rows <= s.enforcer.policies + left && left <= rows
         case Joining(left) =>
           && rows <= s.enforcer.policies && |left| <= |v.roles|
           && left == v.roles[|v.roles| - |left|..]
           && GroupingsFor(v.sub, v.roles[..|v.roles| - |left|]) <= s.enforcer.groups
         case _ => false
       }
  }

  lemma LoadedKept(s: Shared, e: Event, id: Id, rows: set<Policy>, v: Visit)
    requires Loaded(s, id, rows, v) && Enabled(s, e) && !e.Clear? && e != Finish(id)
    ensures Loaded(Apply(s, e), id, rows, v)
  {
    if e.AddGrouping? && e.id == id {
      var k := |v.roles| - |s.visits[id].step.roles|;
      assert v.roles[..k + 1] == v.roles[..k] + [v.roles[k]];
      assert v.roles[k..][1..] == v.roles[k + 1..];
    }
  }

  /** Only this request adds to the enforcer. */
  predicate OnlyAdds(id: Id, es: seq<Event>) {
    forall k :: 0 <= k < |es| && (es[k].AddPolicy? || es[k].AddGrouping?) ==> es[k].id == id
  }

  lemma {:induction false} LoadedOverRun(s: Shared, es: seq<Event>, s': Shared, id: Id, rows: set<Policy>, v: Visit)
    requires Loaded(s, id, rows, v) && Runs(s, es, s') && NoClear(es) && Finish(id) !in es
    ensures Loaded(s', id, rows, v)
    ensures s.enforcer.policies <= rows && OnlyAdds(id, es) ==> s'.enforcer.policies <= rows
    decreases |es|
  {
    if es == [] {
    } else {
      LoadedKept(s, es[0], id, rows, v);
      LoadedOverRun(Apply(s, es[0]), es[1..], s', id, rows, v);
    }
  }

  /** From its clearing to its `enforce`, with no other clearing in between. */
  lemma ClearedRun(r: Shared, id: Id, kept: set<Grouping>, after: seq<Event>, s: Shared)
    requires Enabled(r, Clear(id, kept)) && Runs(Apply(r, Clear(id, kept)), after, s)
    requires NoClear(after) && Finish(id) !in after && Enforcing(s, id)
    ensures var v, rows := r.visits[id], r.visits[id].step.rows;
            && s.visits[id] == v.(step := Joining([]))
            && rows <= s.enforcer.policies && (OnlyAdds(id, after) ==> rows == s.enforcer.policies)
            && GroupingsFor(v.sub, v.roles) <= s.enforcer.groups
  {
    var v, rows := r.visits[id], r.visits[id].step.rows;
    LoadedOverRun(Apply(r, Clear(id, kept)), after, s, id, rows, v);
    assert v.roles[..|v.roles|] == v.roles;
  }

  predicate DoesNotClear(id: Id, es: seq<Event>) {
    forall k :: 0 <= k < |es| && es[k].Clear? ==> es[k].id != id
  }

  /** Between reading its rows and clearing, a request keeps them; and the table stands if nobody edits it. */
  lemma {:induction false} RowsStand(s: Shared, es: seq<Event>, s': Shared, id: Id)
    requires Runs(s, es, s') && Finish(id) !in es
    requires forall k :: 0 <= k < |es| ==> !es[k].EditTable?
    ensures s'.table == s.table
    ensures id in s.visits && s.visits[id].step.HasRows? && DoesNotClear(id, es) ==>
              id in s'.visits && s'.visits[id] == s.visits[id]
    decreases |es|
  {
    if es == [] {
    } else {
      RowsStand(Apply(s, es[0]), es[1..], s', id);
    }
  }

  predicate TableStands(id: Id, es: seq<Event>) {
    (forall k :: 0 <= k < |es| ==> !es[k].EditTable?) && Finish(id) !in es
  }

  /** Over any run: from a request's reading of its rows to its `enforce`, if the table is not edited and
      nobody clears after it cleared, it is never refused what the rule allows; and if nobody else adds
      to the enforcer either, it gets exactly the rule's answer, whatever its clearing kept. */
  lemma UndisturbedIsExact(r: Shared, id: Id, mid: seq<Event>, kept: set<Grouping>, after: seq<Event>, s: Shared)
    requires Enabled(r, ReadRows(id))
    requires Runs(Apply(r, ReadRows(id)), mid + [Clear(id, kept)] + after, s) && Enforcing(s, id)
    requires TableStands(id, mid) && TableStands(id, after) && NoClear(after)
    requires DoesNotClear(id, mid)
    ensures var v := s.visits[id];
            && (RoleAllows(s.table, v.roles, v.path, v.method_) ==> Allows(s, id))
            && (OnlyAdds(id, after) ==> (Allows(s, id) <==> RoleAllows(s.table, v.roles, v.path, v.method_)))
  {
    var read := Apply(r, ReadRows(id));
    var cleared := RunsSplit(read, mid + [Clear(id, kept)], after, s);
    var c := RunsSplit(read, mid, [Clear(id, kept)], cleared);
    RowsStand(read, mid, c, id);
    RowsStand(cleared, after, s, id);
    ClearedRun(c, id, kept, after, s);
    var v, e := s.visits[id], s.enforcer;
    var own := RowsFor(s.table, v.roles);
    EnforcerRefinesRule(s.table, e.groups, v.sub, v.roles, v.path, v.method_);
    assert e.groups + GroupingsFor(v.sub, v.roles) == e.groups;
    assert own <= e.policies;
    assert Enforces(Enforcer(own, e.groups), v.sub, v.path, v.method_) ==> Allows(s, id);
  }

  // ----- One request that nobody interrupts --------------------------------------------------------

  /** The steps of a request between its verification and its `enforce`. */
  predicate Loads(e: Event) {
    e.ReadRows? || e.Clear? || e.AddPolicy? || e.Filled? || e.AddGrouping?
  }

  predicate OnlyLoads(es: seq<Event>) {
    forall k :: 0 <= k < |es| ==> Loads(es[k])
  }

  ghost predicate LoadsTo(s: Shared, s': Shared) {
    exists es :: Runs(s, es, s') && OnlyLoads(es)
  }

  lemma {:induction false} RunsConcat(s: Shared, es: seq<Event>, s': Shared, fs: seq<Event>, s'': Shared)
    requires Runs(s, es, s') && Runs(s', fs, s'')
    ensures Runs(s, es + fs, s'')
    decreases |es|
  {
    if es == [] {
      assert es + fs == fs;
    } else {
      RunsConcat(Apply(s, es[0]), es[1..], s', fs, s'');
      assert (es + fs)[1..] == es[1..] + fs;
    }
  }

  lemma LoadsStep(start: Shared, s: Shared, e: Event, s': Shared)
    requires LoadsTo(start, s) && Enabled(s, e) && Loads(e) && s' == Apply(s, e)
    ensures LoadsTo(start, s')
  {
    var es :| Runs(start, es, s) && OnlyLoads(es);
    assert Runs(s', [], s') && Runs(s, [e], s');
    RunsConcat(start, es, s, [e], s');
    assert OnlyLoads(es + [e]);
  }

  /** `s` with this request at this step, and the enforcer holding this. */
  function With(s: Shared, id: Id, v: Visit, step: Step, policies: set<Policy>, groups: set<Grouping>): Shared {
    s.(visits := s.visits[id := v.(step := step)], enforcer := Enforcer(policies, groups))
  }

  lemma {:induction false} FillRun(start: Shared, s: Shared, id: Id, v: Visit, rows: set<Policy>,
                                   policies: set<Policy>, groups: set<Grouping>)
    requires LoadsTo(start, With(s, id, v, Filling(rows), policies, groups))
    ensures LoadsTo(start, With(s, id, v, Filling({}), policies + rows, groups))
    decreases |rows|
  {
    if rows == {} {
      assert policies + rows == policies;
    } else {
      var row :| row in rows;
      var next := With(s, id, v, Filling(rows - {row}), policies + {row}, groups);
      LoadsStep(start, With(s, id, v, Filling(rows), policies, groups), AddPolicy(id, row), next);
      FillRun(start, s, id, v, rows - {row}, policies + {row}, groups);
      assert policies + {row} + (rows - {row}) == policies + rows;
    }
  }

  lemma {:induction false} JoinRun(start: Shared, s: Shared, id: Id, v: Visit, roles: seq<Name>,
                                   policies: set<Policy>, groups: set<Grouping>)
    requires LoadsTo(start, With(s, id, v, Joining(roles), policies, groups))
    ensures LoadsTo(start, With(s, id, v, Joining([]), policies, groups + GroupingsFor(v.sub, roles)))
    decreases |roles|
  {
    if roles == [] {
      assert groups + GroupingsFor(v.sub, roles) == groups;
    } else {
      var g := Grouping(v.sub, roles[0]);
      var next := With(s, id, v, Joining(roles[1..]), policies, groups + {g});
      LoadsStep(start, With(s, id, v, Joining(roles), policies, groups), AddGrouping(id, g), next);
      JoinRun(start, s, id, v, roles[1..], policies, groups + {g});
      assert roles == [roles[0]] + roles[1..];
      assert groups + {g} + GroupingsFor(v.sub, roles[1..]) == groups + GroupingsFor(v.sub, roles);
    }
  }

  lemma ClearRun(start: Shared, s: Shared, id: Id, v: Visit, rows: set<Policy>, policies: set<Policy>,
                 groups: set<Grouping>, kept: set<Grouping>)
    requires LoadsTo(start, With(s, id, v, HasRows(rows), policies, groups)) && kept <= groups
    ensures LoadsTo(start, With(s, id, v, Joining(v.roles), rows, kept))
  {
    LoadsStep(start, With(s, id, v, HasRows(rows), policies, groups), Clear(id, kept),
              With(s, id, v, Filling(rows), {}, kept));
    FillRun(start, s, id, v, rows, {}, kept);
    assert {} + rows == rows;
    LoadsStep(start, With(s, id, v, Filling({}), rows, kept), Filled(id),
              With(s, id, v, Joining(v.roles), rows, kept));
  }

  /** The state after the request's token is verified. */
  function Entering(s: Shared, id: Id, v: Visit): Shared {
    s.(visits := s.visits[id := v], carried := s.carried + GroupingsFor(v.sub, v.roles))
  }

  /** From there to its `enforce` it only loads. */
  lemma LoadRun(s: Shared, id: Id, v: Visit, kept: set<Grouping>) returns (mid: Shared)
    requires id in s.visits && s.visits[id] == v && v.step.Entered? && kept <= s.enforcer.groups
    ensures mid == With(s.(seen := s.seen + RowsFor(s.table, v.roles)), id, v, Joining([]), RowsFor(s.table, v.roles),
                        kept + GroupingsFor(v.sub, v.roles))
    ensures LoadsTo(s, mid)
  {
    var rows := RowsFor(s.table, v.roles);
    var read := s.(seen := s.seen + rows);
    assert Runs(s, [], s) && OnlyLoads([]);
    LoadsStep(s, s, ReadRows(id), With(read, id, v, HasRows(rows), s.enforcer.policies, s.enforcer.groups));
    ClearRun(s, read, id, v, rows, s.enforcer.policies, s.enforcer.groups, kept);
    JoinRun(s, read, id, v, v.roles, rows, kept);
    mid := With(read, id, v, Joining([]), rows, kept + GroupingsFor(v.sub, v.roles));
  }

  // ----- What interleaving does break --------------------------------------------------------------

  const ROW := Policy("reader", "/reports", "get")

  const ANN := Grouping("ann", "reader")

  const START := Shared({ROW}, Enforcer({}, {}), map[], {}, {})

  /** A reader's request loads everything; then a writer's reads its (no) rows. */
  const TWO_REQUESTS := [Verify(1, "ann", ["reader"], "/reports", "get"), ReadRows(1), Clear(1, {}), AddPolicy(1, ROW),
                         Filled(1), AddGrouping(1, ANN), Verify(2, "bob", ["writer"], "/reports", "get"), ReadRows(2)]

  /** Where that leads. */
  function Collision(): Shared {
    Shared({ROW}, Enforcer({ROW}, {ANN}),
           map[1 := Visit("ann", ["reader"], "/reports", "get", Joining([])),
               2 := Visit("bob", ["writer"], "/reports", "get", HasRows({}))],
           {ROW}, {ANN, Grouping("bob", "writer")})
  }

  /** The first request alone, having come this far. */
  function First(step: Step, policies: set<Policy>, groups: set<Grouping>): Shared {
    Shared({ROW}, Enforcer(policies, groups), map[1 := Visit("ann", ["reader"], "/reports", "get", step)], {ROW}, {ANN})
  }

  lemma FirstLoads()
    ensures Runs(First(HasRows({ROW}), {}, {}), TWO_REQUESTS[2..6], First(Joining([]), {ROW}, {ANN}))
  {
    var es, s := TWO_REQUESTS[2..6], First(Joining([]), {ROW}, {ANN});
    assert {ROW} - {ROW} == {} && ["reader"][1..] == [];
    assert Apply(First(Joining(["reader"]), {ROW}, {}), es[3]) == s && es[3..][1..] == [];
    assert Runs(First(Joining(["reader"]), {ROW}, {}), es[3..], s);
    assert Apply(First(Filling({}), {ROW}, {}), es[2]) == First(Joining(["reader"]), {ROW}, {});
    assert Runs(First(Filling({}), {ROW}, {}), es[2..], s);
    assert Apply(First(Filling({ROW}), {}, {}), es[1]) == First(Filling({}), {ROW}, {});
    assert Runs(First(Filling({ROW}), {}, {}), es[1..], s);
    assert Apply(First(HasRows({ROW}), {}, {}), es[0]) == First(Filling({ROW}), {}, {});
  }

  lemma FirstRequest()
    ensures Runs(START, TWO_REQUESTS[..6], First(Joining([]), {ROW}, {ANN}))
  {
    var es := TWO_REQUESTS[..2];
    assert RowsFor({ROW}, ["reader"]) == {ROW} && GroupingsFor("ann", ["reader"]) == {ANN};
    assert Apply(Apply(START, es[0]), es[1]) == First(HasRows({ROW}), {}, {});
    assert Runs(Apply(START, es[0]), es[1..], First(HasRows({ROW}), {}, {}));
    FirstLoads();
    RunsConcat(START, es, First(HasRows({ROW}), {}, {}), TWO_REQUESTS[2..6], First(Joining([]), {ROW}, {ANN}));
    assert es + TWO_REQUESTS[2..6] == TWO_REQUESTS[..6];
  }

  lemma SecondRequest()
    ensures Runs(First(Joining([]), {ROW}, {ANN}), TWO_REQUESTS[6..], Collision())
  {
    var es := TWO_REQUESTS[6..];
    assert RowsFor({ROW}, ["writer"]) == {} && GroupingsFor("bob", ["writer"]) == {Grouping("bob", "writer")};
    var s1 := Apply(First(Joining([]), {ROW}, {ANN}), es[0]);
    assert Apply(s1, es[1]) == Collision();
    assert Runs(s1, es[1..], Collision());
  }

  lemma CollisionRun()
    ensures Initial(START) && Runs(START, TWO_REQUESTS, Collision())
  {
    FirstRequest();
    SecondRequest();
    RunsConcat(START, TWO_REQUESTS[..6], First(Joining([]), {ROW}, {ANN}), TWO_REQUESTS[6..], Collision());
    assert TWO_REQUESTS[..6] + TWO_REQUESTS[6..] == TWO_REQUESTS;
  }

  /** There, left alone, the first request is allowed, as the stateless rule says; once the second has
      cleared the enforcer, the first is refused. */
  lemma CollisionRefuses()
    ensures Runs(START, TWO_REQUESTS, Collision()) && Enabled(Collision(), Clear(2, {ANN}))
    ensures Enforcing(Collision(), 1) && Allows(Collision(), 1)
    ensures var s := Apply(Collision(), Clear(2, {ANN}));
            && Enforcing(s, 1) && !Allows(s, 1)
            && RoleAllows(s.table, s.visits[1].roles, s.visits[1].path, s.visits[1].method_)
  {
    CollisionRun();
    var s := Collision();
    DirectReach(s.enforcer.groups, {"ann"}, ANN);
    assert ROW.role == ANN.of && Policy(s.visits[1].roles[0], "/reports", "get") == ROW;
  }
}

/** The two revocation paths as the programs write them, against the stores they share. Each method
    is proved to be a run of the transition system in `Revocation`, besides its own contract. */
module TokenRevoker {
  import opened Tokens
  import opened Alerts
  import opened Finality
  import opened Revocation

  /** The tables the revoker's transaction changes, with `token_revocations` as a bag of rows. */
  datatype Db = Db(alerts: set<AlertId>, records: multiset<Record>, sessions: map<Jti, Session>)

  /** A delivered Kafka message: `None` when its value does not parse. */
  datatype Message = Unparsable | Parsed(alert: Alert)

  datatype Auth = Auth(sub: User, roles: set<string>)

  // ----- Specification -----------------------------------------------------------------------

  function Targets(sessions: map<Jti, Session>, a: Alert): set<Jti> {
    if Wide(a) then Unrevoked(sessions, a.userId) else {a.jti}
  }

  function Rows(a: Alert, jtis: set<Jti>): multiset<Record> {
    multiset(set j | j in jtis :: Record(j, a))
  }

  /** What an alert does to the database, whatever was there before. */
  function Effect(db: Db, a: Alert): Db {
    Db(db.alerts + {a.id},
       db.records + Rows(a, Targets(db.sessions, a)),
       Flag(db.sessions, if Wide(a) then Unrevoked(db.sessions, a.userId) else {}))
  }

  /** How many statements a delivery executes when none of them fails. */
  function Statements(db: Db, a: Alert): nat {
    if a.id in db.alerts then 4
    else if Wide(a) then 6 + 2 * |Unrevoked(db.sessions, a.userId)|
    else 6
  }

  /** A delivery whose connection survives `budget` statements. */
  function Deliver(db: Db, m: Message, budget: nat): Db {
    if m.Unparsable? || !ShouldProcess(m.alert) then db
    else if budget < Statements(db, m.alert) || m.alert.id in db.alerts then db
    else Effect(db, m.alert)
  }

  function DeliverAll(db: Db, ms: seq<Message>, budgets: seq<nat>): Db
    requires |ms| == |budgets|
  {
    if ms == [] then db
    else Deliver(DeliverAll(db, ms[..|ms| - 1], budgets[..|ms| - 1]), ms[|ms| - 1], budgets[|ms| - 1])
  }

  /** The delivery at the end of this history commits, with or without an effect. */
  predicate Commits(db: Db, m: Message, budget: nat) {
    m.Parsed? && ShouldProcess(m.alert) && Statements(db, m.alert) <= budget
  }

  /** The alerts whose delivery committed while their id was not yet in `revoked_alerts`. */
  function FirstCommits(db: Db, ms: seq<Message>, budgets: seq<nat>): seq<Alert>
    requires |ms| == |budgets|
  {
    if ms == [] then []
    else
      var n := |ms| - 1;
      var db' := DeliverAll(db, ms[..n], budgets[..n]);
      FirstCommits(db, ms[..n], budgets[..n]) +
      (if Commits(db', ms[n], budgets[n]) && ms[n].alert.id !in db'.alerts then [ms[n].alert] else [])
  }

  function Ids(alerts: seq<Alert>): set<AlertId> {
    set a | a in alerts :: a.id
  }

  function ApplyEach(db: Db, alerts: seq<Alert>): Db {
    if alerts == [] then db
    else Effect(ApplyEach(db, alerts[..|alerts| - 1]), alerts[|alerts| - 1])
  }

  /** Delivery `k` committed, and was of this alert id. */
  predicate CommittedAt(db: Db, ms: seq<Message>, budgets: seq<nat>, k: nat, id: AlertId)
    requires k < |ms| == |budgets|
  {
    Commits(DeliverAll(db, ms[..k], budgets[..k]), ms[k], budgets[k]) && ms[k].alert.id == id
  }

  // ----- Exactly once ------------------------------------------------------------------------

  /** `db'` is what applying each of these alerts once, in this order, makes of `db`; their ids are all
      different, and were not there before. */
  ghost predicate AppliedOnce(db: Db, alerts: seq<Alert>, db': Db) {
    && db' == ApplyEach(db, alerts) && db'.alerts == db.alerts + Ids(alerts)
    && (forall i, k :: 0 <= i < k < |alerts| ==> alerts[i].id != alerts[k].id)
    && Ids(alerts) !! db.alerts
  }

  lemma AppliedNext(db: Db, alerts: seq<Alert>, db': Db, a: Alert)
    requires AppliedOnce(db, alerts, db') && a.id !in db'.alerts
    ensures AppliedOnce(db, alerts + [a], Effect(db', a))
  {
    var all := alerts + [a];
    assert all[..|alerts|] == alerts;
    assert Ids(all) == Ids(alerts) + {a.id};
    forall i | 0 <= i < |alerts| ensures alerts[i].id in Ids(alerts) { assert alerts[i] in alerts; }
  }

  /** For any sequence of deliveries, with duplicates and failures at any statement, the database is
      what applying each alert once, at its first committed delivery, makes of it. */
  lemma {:induction false} ExactlyOnce(db: Db, ms: seq<Message>, budgets: seq<nat>)
    requires |ms| == |budgets|
    ensures AppliedOnce(db, FirstCommits(db, ms, budgets), DeliverAll(db, ms, budgets))
    decreases |ms|
  {
    if ms == [] {
    } else {
      var n := |ms| - 1;
      var before, db' := FirstCommits(db, ms[..n], budgets[..n]), DeliverAll(db, ms[..n], budgets[..n]);
      ExactlyOnce(db, ms[..n], budgets[..n]);
      if Commits(db', ms[n], budgets[n]) && ms[n].alert.id !in db'.alerts {
        AppliedNext(db, before, db', ms[n].alert);
      } else {
        assert before + [] == before;
      }
    }
  }

  /** The ids so applied are exactly those of which some delivery committed. */
  lemma {:induction false} CommittedOrKnown(db: Db, ms: seq<Message>, budgets: seq<nat>, id: AlertId)
    requires |ms| == |budgets|
    ensures id in DeliverAll(db, ms, budgets).alerts <==>
            id in db.alerts || exists k :: 0 <= k < |ms| && CommittedAt(db, ms, budgets, k, id)
    decreases |ms|
  {
    if ms == [] {
    } else {
      var n := |ms| - 1;
      CommittedOrKnown(db, ms[..n], budgets[..n], id);
      DeliverAlerts(DeliverAll(db, ms[..n], budgets[..n]), ms[n], budgets[n]);
      forall k: nat | k < n
        ensures CommittedAt(db, ms, budgets, k, id) == CommittedAt(db, ms[..n], budgets[..n], k, id)
      {
        assert ms[..n][..k] == ms[..k] && budgets[..n][..k] == budgets[..k];
      }
      assert CommittedAt(db, ms, budgets, n, id) <==>
             Commits(DeliverAll(db, ms[..n], budgets[..n]), ms[n], budgets[n]) && ms[n].alert.id == id;
    }
  }

  lemma DeliverAlerts(db: Db, m: Message, budget: nat)
    ensures Deliver(db, m, budget).alerts == db.alerts + (if Commits(db, m, budget) then {m.alert.id} else {})
  {}

  /** A delivery changes the database exactly when it is of a severe account compromise whose id is new,
      and every statement answers. */
  lemma ChangesIff(db: Db, m: Message, budget: nat)
    ensures Deliver(db, m, budget) != db <==>
            && m.Parsed? && m.alert.class_ == "Account Compromise"
            && (m.alert.severity == "High" || m.alert.severity == "Critical")
            && m.alert.id !in db.alerts
            && (if m.alert.jti == "" then 6 + 2 * |Unrevoked(db.sessions, m.alert.userId)| else 6) <= budget
  {
    if m.Parsed? && m.alert.id !in db.alerts {
      assert m.alert.id in Effect(db, m.alert).alerts;
    }
  }

  /** The alert names this token, or this token's session is an unrevoked one of its user. */
  lemma TargetsAre(sessions: map<Jti, Session>, a: Alert)
    ensures forall j :: j in Targets(sessions, a) <==>
              if a.jti != "" then j == a.jti
              else j in sessions && sessions[j].user == a.userId && !sessions[j].revoked
  {}

  /** What a delivery that changes anything changes: the alert's id is known, each target has one more
      record of this alert, and a user-wide alert leaves no session of its user unrevoked. Nothing else. */
  lemma DeliveryIs(db: Db, m: Message, budget: nat)
    requires Deliver(db, m, budget) != db
    ensures var (a, db') := (m.alert, Deliver(db, m, budget));
            && db'.alerts == db.alerts + {a.id}
            && (forall r :: db'.records[r] == db.records[r] +
                  if r.alert == a && (if a.jti != "" then r.jti == a.jti
                                      else r.jti in db.sessions && db.sessions[r.jti].user == a.userId
                                           && !db.sessions[r.jti].revoked) then 1 else 0)
            && db'.sessions.Keys == db.sessions.Keys
            && (forall j :: j in db.sessions ==>
                  var s := db.sessions[j];
                  db'.sessions[j] == Session(s.user, s.revoked || (a.jti == "" && s.user == a.userId)))
  {
    var a := m.alert;
    TargetsAre(db.sessions, a);
    forall r ensures Rows(a, Targets(db.sessions, a))[r] ==
                     if r.alert == a && r.jti in Targets(db.sessions, a) then 1 else 0
    {
      assert r == Record(r.jti, r.alert);
    }
  }

  // ----- Bags of rows ------------------------------------------------------------------------

  lemma {:induction false} RowsOfEnumeration(a: Alert, jtis: seq<Jti>, elements: set<Jti>)
    requires Enumerates(jtis, elements)
    ensures multiset(RecordsOf(a, jtis)) == Rows(a, elements)
    ensures |jtis| == |elements|
    decreases |jtis|
  {
    if jtis == [] {
      assert elements == {};
    } else {
      var n := |jtis| - 1;
      var rest := elements - {jtis[n]};
      forall x ensures x in jtis[..n] <==> x in rest {
        if x in jtis[..n] { assert x in jtis; }
        if x in rest { assert x in jtis; }
      }
      RowsOfEnumeration(a, jtis[..n], rest);
      assert RecordsOf(a, jtis) == RecordsOf(a, jtis[..n]) + [Record(jtis[n], a)];
      assert jtis[n] in jtis;
      assert (set j | j in elements :: Record(j, a)) == (set j | j in rest :: Record(j, a)) + {Record(jtis[n], a)};
    }
  }

  function Entries(jtis: seq<Jti>, expiry: nat): Blacklist {
    map j | j in jtis :: expiry
  }

  lemma RecordsSnoc(alert: Alert, jtis: seq<Jti>, k: nat)
    requires k < |jtis|
    ensures RecordsOf(alert, jtis[..k + 1]) == RecordsOf(alert, jtis[..k]) + [Record(jtis[k], alert)]
  {}

  lemma EntriesSnoc(blacklist: Blacklist, jtis: seq<Jti>, k: nat, expiry: nat)
    requires k < |jtis|
    ensures (blacklist + Entries(jtis[..k], expiry))[jtis[k] := expiry] == blacklist + Entries(jtis[..k + 1], expiry)
  {
    assert jtis[..k + 1] == jtis[..k] + [jtis[k]];
  }

  /** `w` with this blacklist, and this transaction as the only one. */
  function Alone(w: World, blacklist: Blacklist, tx: Tx): World {
    w.(blacklist := blacklist, txs := map[0 := tx])
  }

  /** The two statements on the next token id, as steps of the transition system. */
  lemma ListStep(start: World, w: World, blacklist: Blacklist, tx: Tx)
    requires Reaches(start, Alone(w, blacklist, tx))
    requires tx.Revoking? && tx.done < |tx.jtis| && !tx.listed
    ensures Reaches(start, Alone(w, List(blacklist, tx.jtis[tx.done], REVOKER_TTL, w.now), tx.(listed := true)))
  {
    var v := Alone(w, blacklist, tx);
    var v' := Alone(w, List(blacklist, tx.jtis[tx.done], REVOKER_TTL, w.now), tx.(listed := true));
    assert v.txs[0 := tx.(listed := true)] == v'.txs;
    ReachesStep(start, v, TxList(0), v');
  }

  lemma RecordStep(start: World, w: World, blacklist: Blacklist, tx: Tx)
    requires Reaches(start, Alone(w, blacklist, tx))
    requires tx.Revoking? && tx.done < |tx.jtis| && tx.listed
    ensures Reaches(start, Alone(w, blacklist, tx.(done := tx.done + 1, listed := false)))
  {
    ReachesStep(start, Alone(w, blacklist, tx), TxRecord(0),
                Alone(w, blacklist, tx.(done := tx.done + 1, listed := false)));
  }

  /** A transaction that has listed the first `k` of its token ids, and recorded all but the last of them. */
  function Listing(a: Alert, rows: seq<Jti>, k: nat): Tx {
    if k == 0 then Revoking(a, rows, 0, false) else Revoking(a, rows, k - 1, true)
  }

  /** Once it has its token ids, it can list the first `k` of them. */
  lemma {:induction false} ListSteps(start: World, w: World, a: Alert, rows: seq<Jti>, k: nat)
    requires k <= |rows| && Reaches(start, Alone(w, w.blacklist, Listing(a, rows, 0)))
    ensures Reaches(start, Alone(w, w.blacklist + Entries(rows[..k], w.now + REVOKER_TTL * 1000), Listing(a, rows, k)))
    decreases k
  {
    var expiry := w.now + REVOKER_TTL * 1000;
    if k == 0 {
      assert w.blacklist + Entries(rows[..0], expiry) == w.blacklist;
    } else {
      var before := w.blacklist + Entries(rows[..k - 1], expiry);
      ListSteps(start, w, a, rows, k - 1);
      if k > 1 {
        RecordStep(start, w, before, Listing(a, rows, k - 1));
      }
      ListStep(start, w, before, Revoking(a, rows, k - 1, false));
      EntriesSnoc(w.blacklist, rows, k - 1, expiry);
    }
  }

  /** How many of `n` token ids a delivery lists before its connection fails. */
  function ListedCount(a: Alert, n: nat, budget: nat): nat {
    var first := if Wide(a) then 4 else 3;
    if budget <= first then 0 else if 2 * n <= budget - first then n else (budget - first + 1) / 2
  }

  /** `rows` are the token ids the delivery got to know: all its targets in some order, or none when
      the connection failed before. */
  ghost predicate Selected(sessions: map<Jti, Session>, a: Alert, rows: seq<Jti>, budget: nat) {
    Enumerates(rows, Targets(sessions, a)) || (rows == [] && budget < 4)
  }

  /** The world after one delivery on its own: blacklist entries stay even when the transaction
      rolls back, the tables change only when it commits. `rows` is what its SELECT returned. */
  function Outcome(w: World, a: Alert, rows: seq<Jti>, budget: nat): World
    requires ListedCount(a, |rows|, budget) <= |rows|
  {
    if a.id in w.alerts then w
    else
      var listed := rows[..ListedCount(a, |rows|, budget)];
      var w' := w.(blacklist := w.blacklist + Entries(listed, w.now + REVOKER_TTL * 1000));
      if budget < 6 + (if Wide(a) then 2 * |rows| else 0) then w'
      else Committed(w', a, rows)
  }

  /** The tables after the commit. */
  function Committed(w: World, a: Alert, rows: seq<Jti>): World {
    w.(alerts := w.alerts + {a.id},
       records := w.records + RecordsOf(a, rows),
       sessions := Flag(w.sessions, if Wide(a) then Unrevoked(w.sessions, a.userId) else {}))
  }

  /** The alert is in effect on these token ids, told field by field: they are its targets, each is recorded
      once and blacklisted for a day, and a user-wide alert leaves no session of its user unrevoked. */
  ghost predicate InEffect(w: World, a: Alert, rows: seq<Jti>, w': World) {
    && (forall j :: j in rows <==>
          if a.jti != "" then j == a.jti
          else j in w.sessions && w.sessions[j].user == a.userId && !w.sessions[j].revoked)
    && (forall i, k :: 0 <= i < k < |rows| ==> rows[i] != rows[k])
    && w'.alerts == w.alerts + {a.id}
    && |w'.records| == |w.records| + |rows| && w.records <= w'.records
    && (forall k :: 0 <= k < |rows| ==> w'.records[|w.records| + k] == Record(rows[k], a))
    && w'.blacklist == w.blacklist + (map j | j in rows :: w.now + 86_400_000)
    && w'.sessions.Keys == w.sessions.Keys
    && (forall j :: j in w.sessions ==>
          var s := w.sessions[j];
          w'.sessions[j] == Session(s.user, s.revoked || (a.jti == "" && s.user == a.userId)))
  }

  lemma CommittedIs(w: World, a: Alert, rows: seq<Jti>)
    requires Enumerates(rows, Targets(w.sessions, a))
    ensures InEffect(w, a, rows, Committed(w.(blacklist := w.blacklist + Entries(rows, w.now + 86_400_000)), a, rows))
  {
    TargetsAre(w.sessions, a);
  }

  /** The statements of a delivery, counted by the rows it got to know. */
  lemma StatementsAre(w: World, a: Alert, rows: seq<Jti>, budget: nat)
    requires a.id !in w.alerts && Selected(w.sessions, a, rows, budget)
    ensures Statements(DatabaseOf(w), a) <= budget <==> (if a.jti == "" then 6 + 2 * |rows| else 6) <= budget
    ensures (if a.jti == "" then 6 + 2 * |rows| else 6) <= budget ==>
              Enumerates(rows, Targets(w.sessions, a)) && ListedCount(a, |rows|, budget) == |rows|
  {
    if Enumerates(rows, Targets(w.sessions, a)) {
      RowsOfEnumeration(a, rows, Targets(w.sessions, a));
    }
  }

  lemma OutcomeCommits(w: World, a: Alert, rows: seq<Jti>, budget: nat)
    requires a.id !in w.alerts && (if a.jti == "" then 6 + 2 * |rows| else 6) <= budget
    requires ListedCount(a, |rows|, budget) == |rows|
    ensures Outcome(w, a, rows, budget) ==
            Committed(w.(blacklist := w.blacklist + Entries(rows, w.now + 86_400_000)), a, rows)
  {
    assert rows[..|rows|] == rows;
  }

  lemma OutcomeIs(w: World, a: Alert, rows: seq<Jti>, budget: nat)
    requires a.id !in w.alerts && Selected(w.sessions, a, rows, budget) && ListedCount(a, |rows|, budget) <= |rows|
    ensures if (if a.jti == "" then 6 + 2 * |rows| else 6) <= budget
            then InEffect(w, a, rows, Outcome(w, a, rows, budget))
            else var w' := Outcome(w, a, rows, budget);
                 w'.alerts == w.alerts && w'.records == w.records && w'.sessions == w.sessions
  {
    if (if a.jti == "" then 6 + 2 * |rows| else 6) <= budget {
      StatementsAre(w, a, rows, budget);
      OutcomeCommits(w, a, rows, budget);
      CommittedIs(w, a, rows);
    }
  }

  lemma FlagOne(sessions: map<Jti, Session>, jti: Jti)
    requires jti in sessions
    ensures Flag(sessions, {jti}) == sessions[jti := sessions[jti].(revoked := true)]
    ensures sessions[jti].revoked ==> Flag(sessions, {jti}) == sessions
  {}

  lemma FlagNone(sessions: map<Jti, Session>)
    ensures Flag(sessions, {}) == sessions
  {}

  lemma SingleEnumeration(a: Alert, rows: seq<Jti>)
    requires Enumerates(rows, {a.jti})
    ensures rows == [a.jti]
  {
    RowsOfEnumeration(a, rows, {a.jti});
    assert rows[0] in rows;
  }

  lemma LockRun(w: World, a: Alert)
    requires w.txs == map[]
    ensures Reaches(w, Alone(w, w.blacklist, Locked(a)))
  {
    ReachesSelf(w);
    ReachesStep(w, w, TxBegin(0, a), Alone(w, w.blacklist, Begun(a)));
    ReachesStep(w, Alone(w, w.blacklist, Begun(a)), TxLock(0), Alone(w, w.blacklist, Locked(a)));
  }

  lemma InsertEnabled(w: World, a: Alert)
    ensures Enabled(Alone(w, w.blacklist, Locked(a)), TxInsert(0))
  {}

  lemma InsertApplies(w: World, a: Alert, next: Tx)
    requires a.id !in w.alerts && next == if Wide(a) then Fresh(a) else Revoking(a, [a.jti], 0, false)
    ensures Apply(Alone(w, w.blacklist, Locked(a)), TxInsert(0)) == Alone(w, w.blacklist, next)
  {
    assert map[0 := Locked(a)][0 := next] == map[0 := next];
  }

  lemma InsertStep(start: World, w: World, a: Alert, next: Tx)
    requires Reaches(start, Alone(w, w.blacklist, Locked(a))) && a.id !in w.alerts
    requires next == if Wide(a) then Fresh(a) else Revoking(a, [a.jti], 0, false)
    ensures Reaches(start, Alone(w, w.blacklist, next))
  {
    InsertEnabled(w, a);
    InsertApplies(w, a, next);
    ReachesStep(start, Alone(w, w.blacklist, Locked(a)), TxInsert(0), Alone(w, w.blacklist, next));
  }

  lemma SelectStep(start: World, w: World, a: Alert, rows: seq<Jti>)
    requires Reaches(start, Alone(w, w.blacklist, Fresh(a))) && Enumerates(rows, Unrevoked(w.sessions, a.userId))
    ensures Reaches(start, Alone(w, w.blacklist, Revoking(a, rows, 0, false)))
  {
    ReachesStep(start, Alone(w, w.blacklist, Fresh(a)), TxSelect(0, rows),
                Alone(w, w.blacklist, Revoking(a, rows, 0, false)));
  }

  /** A transaction alone in the world, up to the point where it knows its token ids. */
  lemma OpeningRun(w: World, a: Alert, rows: seq<Jti>)
    requires w.txs == map[] && a.id !in w.alerts
    requires Enumerates(rows, Targets(w.sessions, a))
    ensures Reaches(w, Alone(w, w.blacklist, Listing(a, rows, 0)))
  {
    LockRun(w, a);
    InsertStep(w, w, a, if Wide(a) then Fresh(a) else Revoking(a, [a.jti], 0, false));
    if Wide(a) {
      SelectStep(w, w, a, rows);
    } else {
      SingleEnumeration(a, rows);
    }
  }

  // ----- The programs ------------------------------------------------------------------------

  lemma SweepStep(start: World, w: World, blacklist: Blacklist, a: Alert, rows: seq<Jti>)
    requires Reaches(start, Alone(w, blacklist, Revoking(a, rows, |rows|, false))) && Wide(a)
    ensures Reaches(start, Alone(w, blacklist, Flagged(a, rows, Unrevoked(w.sessions, a.userId))))
  {
    ReachesStep(start, Alone(w, blacklist, Revoking(a, rows, |rows|, false)), TxUpdate(0),
                Alone(w, blacklist, Flagged(a, rows, Unrevoked(w.sessions, a.userId))));
  }

  /** The transaction of an alert when it is ready to commit. */
  function Ready(w: World, a: Alert, rows: seq<Jti>): Tx {
    if Wide(a) then Flagged(a, rows, Unrevoked(w.sessions, a.userId)) else Revoking(a, rows, |rows|, false)
  }

  lemma CommitStep(start: World, w: World, blacklist: Blacklist, a: Alert, rows: seq<Jti>)
    requires w.txs == map[] && Reaches(start, Alone(w, blacklist, Ready(w, a, rows)))
    ensures Reaches(start, Committed(w.(blacklist := blacklist), a, rows))
  {
    var mid := Alone(w, blacklist, Ready(w, a, rows));
    assert mid.txs - {0} == map[];
    ReachesStep(start, mid, TxCommit(0), Commit(mid, 0, Ready(w, a, rows)));
  }

  /** A transaction that has listed all its token ids records the last, sweeps and commits. */
  lemma ClosingRun(start: World, w: World, blacklist: Blacklist, a: Alert, rows: seq<Jti>)
    requires w.txs == map[] && Reaches(start, Alone(w, blacklist, Listing(a, rows, |rows|)))
    ensures Reaches(start, Committed(w.(blacklist := blacklist), a, rows))
  {
    if |rows| > 0 {
      RecordStep(start, w, blacklist, Listing(a, rows, |rows|));
    }
    if Wide(a) {
      SweepStep(start, w, blacklist, a, rows);
    }
    CommitStep(start, w, blacklist, a, rows);
  }

  /** A delivery that reaches its token ids, alone in the world. */
  lemma WholeRun(w: World, a: Alert, rows: seq<Jti>, k: nat)
    requires w.txs == map[] && a.id !in w.alerts && k <= |rows|
    requires Enumerates(rows, Targets(w.sessions, a))
    ensures var listed := w.(blacklist := w.blacklist + Entries(rows[..k], w.now + REVOKER_TTL * 1000));
            Reaches(w, listed) && (k == |rows| ==> Reaches(w, Committed(listed, a, rows)))
  {
    var blacklist := w.blacklist + Entries(rows[..k], w.now + REVOKER_TTL * 1000);
    OpeningRun(w, a, rows);
    ListSteps(w, w, a, rows, k);
    var mid := Alone(w, blacklist, Listing(a, rows, k));
    assert mid.txs - {0} == map[];
    ReachesStep(w, mid, TxRollback(0), w.(blacklist := blacklist));
    if k == |rows| {
      ClosingRun(w, w, blacklist, a, rows);
    }
  }

  lemma NothingListed(w: World, expiry: nat)
    ensures w.(blacklist := w.blacklist + Entries([], expiry)) == w
  {}

  /** The program's delivery is a run of the transition system, so what holds over every run of that
      system holds of the program. */
  lemma OutcomeIsRun(w: World, a: Alert, rows: seq<Jti>, budget: nat)
    requires w.txs == map[] && ListedCount(a, |rows|, budget) <= |rows|
    requires Selected(w.sessions, a, rows, budget)
    ensures Reaches(w, Outcome(w, a, rows, budget))
  {
    if a.id in w.alerts {
      ReachesSelf(w);
    } else if budget < 4 {
      assert rows[..0] == [];
      NothingListed(w, w.now + REVOKER_TTL * 1000);
      ReachesSelf(w);
    } else {
      if !Wide(a) { SingleEnumeration(a, rows); }
      WholeRun(w, a, rows, ListedCount(a, |rows|, budget));
    }
  }

  function DatabaseOf(w: World): Db {
    Db(w.alerts, multiset(w.records), w.sessions)
  }

  /** In the database, the outcome of a delivery is the effect of its alert or nothing. */
  lemma OutcomeDelivers(w: World, a: Alert, rows: seq<Jti>, budget: nat)
    requires ShouldProcess(a) && ListedCount(a, |rows|, budget) <= |rows|
    requires Selected(w.sessions, a, rows, budget)
    ensures DatabaseOf(Outcome(w, a, rows, budget)) == Deliver(DatabaseOf(w), Parsed(a), budget)
  {
    if Enumerates(rows, Targets(w.sessions, a)) {
      RowsOfEnumeration(a, rows, Targets(w.sessions, a));
    }
    if !Wide(a) && Enumerates(rows, Targets(w.sessions, a)) {
      SingleEnumeration(a, rows);
    }
  }

  lemma {:induction false} OwnStepsAreCareful(w: World, es: seq<Event>, w': World, j: Jti)
    requires Runs(w, es, w') && OwnSteps(es)
    ensures CarefulRun(w, es, w', j)
    decreases |es|
  {
    if es == [] {
    } else {
      assert OwnStep(es[0]);
      OwnStepsAreCareful(Apply(w, es[0]), es[1..], w', j);
    }
  }

  /** Since the programs below only make runs of own steps, they never undo a revocation: an access token
      that is revoked when they start is rejected for good wherever they lead. */
  lemma ProgramsRevokeForGood(w0: World, es: seq<Event>, w: World, later: World, j: Jti)
    requires Initial(w0) && Runs(w0, es, w) && CarefulRun(w0, es, w, j) && Reaches(w, later)
    requires j in w.tokens && w.tokens[j].lifetime == ACCESS_SECONDS && IsRevoked(w, j)
    ensures j in later.tokens && later.tokens[j] == w.tokens[j]
    ensures RejectedFrom(later.tokens[j], j, later.blacklist, later.now)
  {
    var more :| Runs(w, more, later) && OwnSteps(more);
    OwnStepsAreCareful(w, more, later, j);
    RevocationIsFinal(w0, es, w, more, later, j);
  }

  /** And what they newly revoke is revoked for good too. */
  lemma ProgramsRevoke(w0: World, es: seq<Event>, w: World, later: World, j: Jti)
    requires Initial(w0) && Runs(w0, es, w) && CarefulRun(w0, es, w, j) && Reaches(w, later)
    requires j in later.tokens && later.tokens[j].lifetime == ACCESS_SECONDS && IsRevoked(later, j)
    ensures RejectedFrom(later.tokens[j], j, later.blacklist, later.now)
  {
    var more :| Runs(w, more, later) && OwnSteps(more);
    OwnStepsAreCareful(w, more, later, j);
    RunsConcat(w0, es, w, more, later);
    CarefulConcat(w0, es, w, more, later, j);
    RevocationIsFinal(w0, es + more, later, [], later, j);
  }

  lemma {:induction false} CarefulConcat(w: World, es: seq<Event>, w': World, fs: seq<Event>, w'': World, j: Jti)
    requires Runs(w, es, w') && Runs(w', fs, w'') && Runs(w, es + fs, w'')
    requires CarefulRun(w, es, w', j) && CarefulRun(w', fs, w'', j)
    ensures CarefulRun(w, es + fs, w'', j)
    decreases |es|
  {
    if es == [] {
      assert es + fs == fs;
    } else {
      assert (es + fs)[1..] == es[1..] + fs;
      CarefulConcat(Apply(w, es[0]), es[1..], w', fs, w'', j);
    }
  }

  predicate InOrder(times: seq<nat>) {
    forall i, j :: 0 <= i <= j < |times| ==> times[i] <= times[j]
  }

  lemma WaitRun(start: World, w: World, until: nat)
    requires Reaches(start, w) && w.now <= until
    ensures Reaches(start, w.(now := until))
  {
    ReachesStep(start, w, Tick(until - w.now), w.(now := until));
  }

  datatype Status = NoContent | BadRequest | Forbidden | NotFound | Failed

  class Stores {
    const tokens: map<Jti, Token>
    var blacklist: Blacklist
    var sessions: map<Jti, Session>
    var revokedAlerts: set<AlertId>
    var tokenRevocations: seq<Record>

    constructor (tokens: map<Jti, Token>, sessions: map<Jti, Session>)
      ensures this.tokens == tokens && this.sessions == sessions
      ensures blacklist == map[] && revokedAlerts == {} && tokenRevocations == []
    {
      this.tokens, this.sessions := tokens, sessions;
      blacklist, revokedAlerts, tokenRevocations := map[], {}, [];
    }

    ghost function Database(): Db
      reads this
    {
      Db(revokedAlerts, multiset(tokenRevocations), sessions)
    }

    /** The stores at time `now`, with the given transactions and deletions under way. */
    ghost function View(now: nat, txs: map<Pid, Tx>, deleters: map<Pid, Deleter>): World
      reads this
    {
      World(now, tokens, blacklist, sessions, revokedAlerts, tokenRevocations, txs, deleters)
    }

    /** The rows of a SELECT, in whatever order the database returns them. */
    method Query(user: User) returns (rows: seq<Jti>)
      ensures Enumerates(rows, Unrevoked(sessions, user)) && |rows| == |Unrevoked(sessions, user)|
      ensures forall j :: j in rows <==> j in sessions && sessions[j].user == user && !sessions[j].revoked
      ensures forall i, k :: 0 <= i < k < |rows| ==> rows[i] != rows[k]
    {
      rows := [];
      var left := Unrevoked(sessions, user);
      while left != {}
        invariant left <= Unrevoked(sessions, user)
        invariant Enumerates(rows, Unrevoked(sessions, user) - left)
        invariant |rows| + |left| == |Unrevoked(sessions, user)|
        decreases |left|
      {
        var j :| j in left;
        rows, left := rows + [j], left - {j};
      }
    }

    /** `revokeToken`: the Redis write, then the row, which stays in the transaction. */
    method RevokeToken(jti: Jti, alert: Alert, now: nat, budget: nat) returns (ok: bool, row: Record)
      modifies this`blacklist
      ensures blacklist == if budget == 0 then old(blacklist) else List(old(blacklist), jti, REVOKER_TTL, now)
      ensures ok <==> 2 <= budget
      ensures row == Record(jti, alert)
    {
      row := Record(jti, alert);
      if budget == 0 { return false, row; }
      blacklist := List(blacklist, jti, REVOKER_TTL, now);
      ok := 2 <= budget;
    }

    /** The loop over the token ids of one alert (a single one when the alert names it). */
    method RevokeEach(alert: Alert, jtis: seq<Jti>, now: nat, budget: nat)
      returns (ok: bool, pending: seq<Record>, left: nat, listed: nat)
      modifies this`blacklist
      ensures ok <==> 2 * |jtis| <= budget
      ensures ok ==> pending == RecordsOf(alert, jtis) && left == budget - 2 * |jtis| && listed == |jtis|
      ensures !ok ==> listed == (budget + 1) / 2 <= |jtis|
      ensures blacklist == old(blacklist) + Entries(jtis[..listed], now + REVOKER_TTL * 1000)
    {
      pending, left, listed := [], budget, 0;
      ghost var before, expiry := blacklist, now + REVOKER_TTL * 1000;
      while listed < |jtis|
        invariant 0 <= listed <= |jtis| && left == budget - 2 * listed
        invariant pending == RecordsOf(alert, jtis[..listed])
        invariant blacklist == before + Entries(jtis[..listed], expiry)
      {
        EntriesSnoc(before, jtis, listed, expiry);
        RecordsSnoc(alert, jtis, listed);
        var done, row := RevokeToken(jtis[listed], alert, now, left);
        assert left > 0 ==> blacklist == before + Entries(jtis[..listed + 1], expiry);
        if !done {
          listed := if left > 0 then listed + 1 else listed;
          return false, pending, left, listed;
        }
        pending, left, listed := pending + [row], left - 2, listed + 1;
      }
      assert jtis[..listed] == jtis;
      ok := true;
    }

    /** The rest of `process` once the alert id is inserted: `budget` statements are left. */
    method RevokeTargets(alert: Alert, now: nat, budget: nat) returns (ok: bool, ghost rows: seq<Jti>)
      requires alert.id !in revokedAlerts
      modifies this
      ensures ok <==> Statements(old(Database()), alert) <= budget + 3
      ensures Selected(old(sessions), alert, rows, budget + 3)
      ensures ListedCount(alert, |rows|, budget + 3) <= |rows|
      ensures View(now, map[], map[]) == Outcome(old(View(now, map[], map[])), alert, rows, budget + 3)
    {
      var jtis, left := [alert.jti], budget;
      if Wide(alert) {
        if left == 0 { return false, []; }  // SELECT jwt_id FROM sessions
        left := left - 1;
        jtis := Query(alert.userId);
      }
      rows := jtis;
      var done, pending, rest, _ := RevokeEach(alert, jtis, now, left);
      // UPDATE sessions (for a user-wide alert), then COMMIT
      if !done || rest < (if Wide(alert) then 2 else 1) { return false, rows; }
      if Wide(alert) {
        sessions := Flag(sessions, Unrevoked(sessions, alert.userId));
      }
      revokedAlerts := revokedAlerts + {alert.id};
      tokenRevocations := tokenRevocations + pending;
      FlagNone(sessions);
      ok := true;
    }

    /** `process`: one alert in one transaction. The connection fails after `budget` statements, and
        the deferred rollback then discards what the transaction had not committed. */
    method Process(alert: Alert, now: nat, budget: nat) returns (ok: bool, ghost rows: seq<Jti>)
      modifies this
      ensures ok <==> Statements(old(Database()), alert) <= budget
      ensures ok <==> (if alert.id in old(revokedAlerts) then 4
                       else if alert.jti == "" then 6 + 2 * |rows| else 6) <= budget
      ensures alert.id in old(revokedAlerts) ==> blacklist == old(blacklist)
      ensures !ok || alert.id in old(revokedAlerts) ==>
                && sessions == old(sessions) && tokenRevocations == old(tokenRevocations)
                && revokedAlerts == old(revokedAlerts)
      ensures ok && alert.id !in old(revokedAlerts) ==>
                InEffect(old(View(now, map[], map[])), alert, rows, View(now, map[], map[]))
      ensures alert.id !in old(revokedAlerts) ==> Selected(old(sessions), alert, rows, budget)
      ensures ListedCount(alert, |rows|, budget) <= |rows|
      ensures View(now, map[], map[]) == Outcome(old(View(now, map[], map[])), alert, rows, budget)
    {
      // BEGIN; SELECT pg_advisory_xact_lock; INSERT INTO revoked_alerts
      if budget < 3 { return false, []; }
      if alert.id in revokedAlerts {
        return 4 <= budget, [];  // COMMIT
      }
      ghost var before := View(now, map[], map[]);
      ok, rows := RevokeTargets(alert, now, budget - 3);
      StatementsAre(before, alert, rows, budget);
      OutcomeIs(before, alert, rows, budget);
    }

    /** One iteration of the consumer's loop. */
    method Handle(message: Message, now: nat, budget: nat)
      modifies this
      ensures Database() == Deliver(old(Database()), message, budget)
      ensures message.Unparsable? || message.alert.class_ != "Account Compromise"
              || (message.alert.severity != "High" && message.alert.severity != "Critical") ==>
                View(now, map[], map[]) == old(View(now, map[], map[]))
      ensures Reaches(old(View(now, map[], map[])), View(now, map[], map[]))
    {
      ghost var before := View(now, map[], map[]);
      if message.Unparsable? || !ShouldProcess(message.alert) {
        assert Runs(before, [], before);
        return;
      }
      var _, rows := Process(message.alert, now, budget);
      if message.alert.id in before.alerts {
        assert Runs(before, [], before);
      } else {
        OutcomeIsRun(before, message.alert, rows, budget);
        OutcomeDelivers(before, message.alert, rows, budget);
      }
    }

    /** `ConsumeClaim`: every message is marked, whether it parsed, passed the filter, committed or
        failed. Message `k` is handled at `times[k]`; `start` is when the claim began. Together the
        deliveries leave the database that `DeliverAll` describes. */
    method ConsumeClaim(messages: seq<Message>, start: nat, times: seq<nat>, budgets: seq<nat>) returns (marked: nat)
      requires |messages| == |budgets| == |times|
      requires InOrder([start] + times)
      modifies this
      ensures marked == |messages|
      ensures Database() == DeliverAll(old(Database()), messages, budgets)
      ensures Reaches(old(View(start, map[], map[])), View(([start] + times)[|messages|], map[], map[]))
    {
      marked := 0;
      ghost var first, clock := View(start, map[], map[]), [start] + times;
      ReachesSelf(first);
      while marked < |messages|
        invariant 0 <= marked <= |messages|
        invariant Database() == DeliverAll(old(Database()), messages[..marked], budgets[..marked])
        invariant Reaches(first, View(clock[marked], map[], map[]))
      {
        ghost var before := View(clock[marked + 1], map[], map[]);
        assert clock[marked] <= clock[marked + 1] == times[marked];
        WaitRun(first, View(clock[marked], map[], map[]), times[marked]);
        assert messages[..marked + 1][..marked] == messages[..marked]
               && budgets[..marked + 1][..marked] == budgets[..marked];
        Handle(messages[marked], times[marked], budgets[marked]);
        ReachesTransitive(first, before, View(times[marked], map[], map[]));
        marked := marked + 1;
      }
      assert messages[..marked] == messages && budgets[..marked] == budgets;
    }

    /** `deleteSession`: blacklist first, then flag. Only an administrator and the owner of a session may
        delete it. A store that fails on its `budget`-th call leaves the request unanswered. */
    method DeleteSession(jti: Jti, auth: Auth, now: nat, budget: nat) returns (status: Status)
      modifies this`blacklist, this`sessions
      ensures status == BadRequest <==> jti == ""
      ensures status == NotFound <==> jti != "" && budget > 0 && jti !in old(sessions)
      ensures status == Forbidden <==>
                && jti != "" && budget > 0 && jti in old(sessions)
                && "admin" !in auth.roles && auth.sub != old(sessions)[jti].user
      ensures status == NoContent <==>
                && jti != "" && budget > 0 && jti in old(sessions)
                && ("admin" in auth.roles || auth.sub == old(sessions)[jti].user)
                && (old(sessions)[jti].revoked || budget > 2)
      ensures sessions == if status == NoContent then old(sessions)[jti := old(sessions)[jti].(revoked := true)]
                          else old(sessions)
      ensures blacklist ==
              if jti != "" && jti in old(sessions) && ("admin" in auth.roles || auth.sub == old(sessions)[jti].user)
                 && !old(sessions)[jti].revoked && budget > 1
              then old(blacklist)[jti := now + 900_000] else old(blacklist)
      ensures Reaches(old(View(now, map[], map[])), View(now, map[], map[]))
    {
      ghost var start := View(now, map[], map[]);
      assert Runs(start, [], start);
      if jti == "" { return BadRequest; }
      if budget == 0 { return Failed; }  // sessions.findUnique
      if jti !in sessions { return NotFound; }
      if "admin" !in auth.roles && auth.sub != sessions[jti].user { return Forbidden; }
      FlagOne(sessions, jti);
      if sessions[jti].revoked { return NoContent; }
      if budget == 1 { return Failed; }  // redis.setex
      blacklist := List(blacklist, jti, SESSION_TTL, now);
      DeletionRun(start, jti);
      if budget == 2 { return Failed; }  // sessions.update
      sessions := Flag(sessions, {jti});
      status := NoContent;
    }
  }

  /** A deletion is a run of the system, whether it completes or stops after the blacklist write. */
  lemma DeletionRun(w: World, jti: Jti)
    requires w.deleters == map[] && jti in w.sessions && !w.sessions[jti].revoked
    ensures Reaches(w, w.(blacklist := List(w.blacklist, jti, SESSION_TTL, w.now)))
    ensures Reaches(w, w.(blacklist := List(w.blacklist, jti, SESSION_TTL, w.now), sessions := Flag(w.sessions, {jti})))
  {
    var found := w.(deleters := map[0 := Found(jti)]);
    var blacklist := List(w.blacklist, jti, SESSION_TTL, w.now);
    var listed := w.(blacklist := blacklist, deleters := map[0 := Blacklisted(jti)]);
    assert listed.deleters - {0} == map[];
    ReachesSelf(w);
    ReachesStep(w, w, DeleteFind(0, jti), found);
    ReachesStep(w, found, DeleteList(0), listed);
    ReachesStep(w, listed, DeleteCrash(0), w.(blacklist := blacklist));
    ReachesStep(w, listed, DeleteFlag(0), w.(blacklist := blacklist, sessions := Flag(w.sessions, {jti})));
  }
}

/** The two revocation paths as one transition system: `deleteSession`, the token revoker's
    transactions, direct blacklist writes, token issue and the passing of time, interleaved
    statement by statement. A crash may fall between any two statements. */
module Revocation {
  import opened Tokens
  import opened Alerts

  type Pid = nat

  datatype Session = Session(user: User, revoked: bool)

  /** A row of `token_revocations`, with the whole alert in place of its id and user columns. */
  datatype Record = Record(jti: Jti, alert: Alert)

  /** A revoker transaction, named after the last statement it completed. */
  datatype Tx =
    | Begun(alert: Alert)
    | Locked(alert: Alert)
    | Duplicate(alert: Alert)
    | Fresh(alert: Alert)
      // `done` of the `jtis` are listed and recorded; `listed` says whether the next one is listed.
    | Revoking(alert: Alert, jtis: seq<Jti>, done: nat, listed: bool)
    | Flagged(alert: Alert, jtis: seq<Jti>, flags: set<Jti>)

  /** A `deleteSession` request that found its session unrevoked. */
  datatype Deleter = Found(jti: Jti) | Blacklisted(jti: Jti)

  datatype World = World(
    now: nat,
    tokens: map<Jti, Token>,
    blacklist: Blacklist,
    sessions: map<Jti, Session>,
    alerts: set<AlertId>,
    records: seq<Record>,
    txs: map<Pid, Tx>,
    deleters: map<Pid, Deleter>)

  datatype Event =
    | Tick(ms: nat)
    | Issue(jti: Jti, lifetime: nat)
    | OpenSession(jti: Jti, user: User)
    | Overwrite(jti: Jti, ttl: int)
    | DeleteFind(pid: Pid, jti: Jti)
    | DeleteList(pid: Pid)
    | DeleteFlag(pid: Pid)
    | DeleteCrash(pid: Pid)
    | TxBegin(pid: Pid, alert: Alert)
    | TxLock(pid: Pid)
    | TxInsert(pid: Pid)
    | TxSelect(pid: Pid, jtis: seq<Jti>)
    | TxList(pid: Pid)
    | TxRecord(pid: Pid)
    | TxUpdate(pid: Pid)
    | TxCommit(pid: Pid)
    | TxRollback(pid: Pid)

  // ----- Queries ---------------------------------------------------------------------------

  predicate Wide(a: Alert) {
    a.jti == ""
  }

  predicate HoldsLock(tx: Tx) {
    !tx.Begun?
  }

  /** The transaction has an uncommitted row in `revoked_alerts`. */
  predicate Pending(tx: Tx) {
    tx.Fresh? || tx.Revoking? || tx.Flagged?
  }

  /** `SELECT jwt_id FROM sessions WHERE user_id=$1 AND revoked=false` */
  function Unrevoked(sessions: map<Jti, Session>, user: User): set<Jti> {
    set j | j in sessions && sessions[j].user == user && !sessions[j].revoked
  }

  function Flag(sessions: map<Jti, Session>, flags: set<Jti>): map<Jti, Session> {
    map j | j in sessions :: if j in flags then sessions[j].(revoked := true) else sessions[j]
  }

  function RecordsOf(alert: Alert, jtis: seq<Jti>): seq<Record> {
    seq(|jtis|, i requires 0 <= i < |jtis| => Record(jtis[i], alert))
  }

  predicate Distinct(s: seq<Jti>) {
    forall i, j :: 0 <= i < j < |s| ==> s[i] != s[j]
  }

  ghost predicate Enumerates(s: seq<Jti>, elements: set<Jti>) {
    Distinct(s) && (forall x :: x in s <==> x in elements)
  }

  // ----- Steps -----------------------------------------------------------------------------

  ghost predicate Enabled(w: World, e: Event) {
    match e
    case Tick(_) => true
    case Issue(jti, _) =>
      // A token id is a fresh UUID.
      jti !in w.tokens && jti !in w.blacklist && jti !in w.sessions
    case OpenSession(jti, _) =>
      jti in w.tokens && jti !in w.sessions
    case Overwrite(_, _) => true
    case DeleteFind(pid, jti) =>
      pid !in w.deleters && jti in w.sessions && !w.sessions[jti].revoked
    case DeleteList(pid) => pid in w.deleters && w.deleters[pid].Found?
    case DeleteFlag(pid) => pid in w.deleters && w.deleters[pid].Blacklisted?
    case DeleteCrash(pid) => pid in w.deleters
    case TxBegin(pid, _) => pid !in w.txs
    case TxLock(pid) =>
      && pid in w.txs && w.txs[pid].Begun?
      && forall p :: p in w.txs && HoldsLock(w.txs[p]) ==> w.txs[p].alert.userId != w.txs[pid].alert.userId
    case TxInsert(pid) =>
      // The insert waits for another uncommitted row with the same key.
      && pid in w.txs && w.txs[pid].Locked?
      && forall p :: p in w.txs && Pending(w.txs[p]) ==> w.txs[p].alert.id != w.txs[pid].alert.id
    case TxSelect(pid, jtis) =>
      && pid in w.txs && w.txs[pid].Fresh?
      && Enumerates(jtis, Unrevoked(w.sessions, w.txs[pid].alert.userId))
    case TxList(pid) =>
      pid in w.txs && w.txs[pid].Revoking? && w.txs[pid].done < |w.txs[pid].jtis| && !w.txs[pid].listed
    case TxRecord(pid) =>
      pid in w.txs && w.txs[pid].Revoking? && w.txs[pid].done < |w.txs[pid].jtis| && w.txs[pid].listed
    case TxUpdate(pid) =>
      && pid in w.txs && w.txs[pid].Revoking? && w.txs[pid].done == |w.txs[pid].jtis|
      && Wide(w.txs[pid].alert)
    case TxCommit(pid) => pid in w.txs && ReadyToCommit(w.txs[pid])
    case TxRollback(pid) => pid in w.txs
  }

  predicate ReadyToCommit(tx: Tx) {
    match tx
    case Duplicate(_) => true
    case Revoking(a, jtis, done, _) => !Wide(a) && done == |jtis|
    case Flagged(_, _, _) => true
    case _ => false
  }

  /** The effect of a step. It does not ask `Enabled`, only what the step needs to make sense. */
  function Apply(w: World, e: Event): World {
    match e
    case Tick(ms) => w.(now := w.now + ms)
    case Issue(jti, lifetime) => w.(tokens := w.tokens[jti := Token(w.now, lifetime)])
    case OpenSession(jti, user) => w.(sessions := w.sessions[jti := Session(user, false)])
    case Overwrite(jti, ttl) =>
      if ttl <= 0 then w else w.(blacklist := List(w.blacklist, jti, ttl, w.now))
    case DeleteFind(pid, jti) => w.(deleters := w.deleters[pid := Found(jti)])
    case DeleteList(pid) =>
      if pid !in w.deleters then w else
        var j := w.deleters[pid].jti;
        w.(blacklist := List(w.blacklist, j, SESSION_TTL, w.now), deleters := w.deleters[pid := Blacklisted(j)])
    case DeleteFlag(pid) =>
      if pid !in w.deleters then w else
        w.(sessions := Flag(w.sessions, {w.deleters[pid].jti}), deleters := w.deleters - {pid})
    case DeleteCrash(pid) => w.(deleters := w.deleters - {pid})
    case TxBegin(pid, alert) => w.(txs := w.txs[pid := Begun(alert)])
    case TxRollback(pid) => w.(txs := w.txs - {pid})
    case TxCommit(pid) => if pid in w.txs then Commit(w, pid, w.txs[pid]) else w
    case TxList(pid) =>
      if pid in w.txs && w.txs[pid].Revoking? && w.txs[pid].done < |w.txs[pid].jtis| then
        var tx := w.txs[pid];
        w.(blacklist := List(w.blacklist, tx.jtis[tx.done], REVOKER_TTL, w.now),
           txs := w.txs[pid := tx.(listed := true)])
      else w
    case _ =>
      if e.pid in w.txs then w.(txs := w.txs[e.pid := Advance(w, e, w.txs[e.pid])]) else w
  }

  /** The statements that change nothing outside the transaction until it commits. */
  function Advance(w: World, e: Event, tx: Tx): Tx {
    match e
    case TxLock(_) => Locked(tx.alert)
    case TxInsert(_) =>
      if tx.alert.id in w.alerts then Duplicate(tx.alert)
      else if Wide(tx.alert) then Fresh(tx.alert)
      else Revoking(tx.alert, [tx.alert.jti], 0, false)
    case TxSelect(_, jtis) => Revoking(tx.alert, jtis, 0, false)
    case TxRecord(_) => if tx.Revoking? then tx.(done := tx.done + 1, listed := false) else tx
    case TxUpdate(_) =>
      if tx.Revoking? then Flagged(tx.alert, tx.jtis, Unrevoked(w.sessions, tx.alert.userId)) else tx
    case _ => tx
  }

  function Commit(w: World, pid: Pid, tx: Tx): World {
    var w' := w.(txs := w.txs - {pid});
    if tx.Revoking? || tx.Flagged? then
      w'.(alerts := w.alerts + {tx.alert.id},
          records := w.records + RecordsOf(tx.alert, tx.jtis),
          sessions := Flag(w.sessions, if tx.Flagged? then tx.flags else {}))
    else w'
  }

  /** The worlds a run passes through: `Runs(w, es, w')` when `es` leads from `w` to `w'`. */
  ghost predicate Runs(w: World, es: seq<Event>, w': World)
    decreases |es|
  {
    if es == [] then w' == w
    else Enabled(w, es[0]) && Runs(Apply(w, es[0]), es[1..], w')
  }

  /** A step of the two revocation paths, or the passing of time. */
  predicate OwnStep(e: Event) {
    !e.Issue? && !e.OpenSession? && !e.Overwrite?
  }

  predicate OwnSteps(es: seq<Event>) {
    forall k :: 0 <= k < |es| ==> OwnStep(es[k])
  }

  /** The revocation paths alone lead from `w` to `w'`. */
  ghost predicate Reaches(w: World, w': World) {
    exists es :: Runs(w, es, w') && OwnSteps(es)
  }

  lemma ReachesSelf(w: World)
    ensures Reaches(w, w)
  {
    assert Runs(w, [], w) && OwnSteps([]);
  }

  lemma ReachesStep(start: World, w: World, e: Event, w': World)
    requires Reaches(start, w) && Enabled(w, e) && OwnStep(e) && w' == Apply(w, e)
    ensures Reaches(start, w')
  {
    var es :| Runs(start, es, w) && OwnSteps(es);
    assert Runs(w', [], w') && Runs(w, [e], w');
    RunsConcat(start, es, w, [e], w');
    assert OwnSteps(es + [e]);
  }

  lemma ReachesTransitive(w: World, w': World, w'': World)
    requires Reaches(w, w') && Reaches(w', w'')
    ensures Reaches(w, w'')
  {
    var es :| Runs(w, es, w') && OwnSteps(es);
    var fs :| Runs(w', fs, w'') && OwnSteps(fs);
    RunsConcat(w, es, w', fs, w'');
    assert OwnSteps(es + fs);
  }

  lemma {:induction false} RunsConcat(w: World, es: seq<Event>, w': World, fs: seq<Event>, w'': World)
    requires Runs(w, es, w') && Runs(w', fs, w'')
    ensures Runs(w, es + fs, w'')
    decreases |es|
  {
    if es == [] {
      assert es + fs == fs;
    } else {
      RunsConcat(Apply(w, es[0]), es[1..], w', fs, w'');
      assert (es + fs)[1..] == es[1..] + fs;
    }
  }

  ghost predicate Initial(w: World) {
    && w.txs == map[] && w.deleters == map[] && w.records == [] && w.alerts == {} && w.blacklist == map[]
    && (forall j :: j in w.tokens ==> w.tokens[j].issuedAt <= w.now)
    && (forall j :: j in w.sessions ==> j in w.tokens && !w.sessions[j].revoked)
  }

  // ----- Invariant -------------------------------------------------------------------------

  ghost predicate TokensOk(w: World) {
    && (forall j :: j in w.tokens ==> w.tokens[j].issuedAt <= w.now)
    && (forall j :: j in w.sessions ==> j in w.tokens)
  }

  /** The first `k` of the transaction's token ids have reached the blacklist. */
  function Reached(tx: Tx): nat {
    match tx
    case Revoking(_, jtis, done, listed) => if listed then done + 1 else done
    case Flagged(_, jtis, _) => |jtis|
    case _ => 0
  }

  ghost predicate TxShape(tx: Tx) {
    match tx
    case Fresh(a) => Wide(a)
    case Revoking(a, jtis, done, listed) =>
      && (if listed then done < |jtis| else done <= |jtis|)
      && (!Wide(a) ==> jtis == [a.jti])
      && Distinct(jtis)
    case Flagged(a, jtis, _) => Wide(a) && Distinct(jtis)
    case _ => true
  }

  /** What was written before the database says so: token ids that are recorded, or past their write in
      a transaction or a deletion, are on the blacklist. */
  ghost predicate Listings(w: World) {
    && (forall i :: 0 <= i < |w.records| ==> w.records[i].jti in w.blacklist)
    && (forall p :: p in w.deleters && w.deleters[p].Blacklisted? ==> w.deleters[p].jti in w.blacklist)
    && (forall p :: p in w.txs ==> TxListed(w.blacklist, w.txs[p]))
  }

  predicate TxListed(blacklist: Blacklist, tx: Tx) {
    tx.Revoking? || tx.Flagged? ==> forall k :: 0 <= k < Reached(tx) <= |tx.jtis| ==> tx.jtis[k] in blacklist
  }

  /** What a wide transaction selected are sessions of its user, and its UPDATE flags those still unrevoked. */
  ghost predicate TxSelection(w: World, tx: Tx) {
    && (tx.Flagged? || (tx.Revoking? && Wide(tx.alert)) ==>
          forall k :: 0 <= k < |tx.jtis| ==> tx.jtis[k] in w.sessions && w.sessions[tx.jtis[k]].user == tx.alert.userId)
    && (tx.Flagged? ==>
          forall k :: 0 <= k < |tx.jtis| ==>
                tx.jtis[k] in w.sessions && (tx.jtis[k] in tx.flags || w.sessions[tx.jtis[k]].revoked))
  }

  /** At most one transaction per user is past its lock. */
  ghost predicate LocksExclusive(w: World) {
    forall p, q :: p in w.txs && q in w.txs && p != q && HoldsLock(w.txs[p]) && HoldsLock(w.txs[q]) ==>
      w.txs[p].alert.userId != w.txs[q].alert.userId
  }

  /** At most one transaction per alert id has that id pending, and only while it is not committed. */
  ghost predicate IdsExclusive(w: World) {
    && (forall p :: p in w.txs && Pending(w.txs[p]) ==> w.txs[p].alert.id !in w.alerts)
    && (forall p, q :: p in w.txs && q in w.txs && p != q && Pending(w.txs[p]) && Pending(w.txs[q]) ==>
          w.txs[p].alert.id != w.txs[q].alert.id)
  }

  ghost predicate TxsOk(w: World) {
    && LocksExclusive(w)
    && IdsExclusive(w)
    && (forall p :: p in w.txs ==> TxShape(w.txs[p]) && TxSelection(w, w.txs[p]))
  }

  /** Two rows for one token are never both from user-wide alerts, nor ever from the same alert. */
  predicate Compatible(r: Record, r': Record) {
    r.jti == r'.jti ==> r.alert.id != r'.alert.id && !(Wide(r.alert) && Wide(r'.alert))
  }

  ghost predicate RecordsOk(w: World) {
    && (forall i :: 0 <= i < |w.records| ==> w.records[i].alert.id in w.alerts)
    && (forall i :: 0 <= i < |w.records| && Wide(w.records[i].alert) ==>
          && w.records[i].jti in w.sessions
          && w.sessions[w.records[i].jti] == Session(w.records[i].alert.userId, true))
    && (forall i, j :: 0 <= i < j < |w.records| ==> Compatible(w.records[i], w.records[j]))
    && (forall p, i :: p in w.txs && 0 <= i < |w.records| ==> Unrecorded(w.txs[p], w.records[i]))
  }

  predicate Unrecorded(tx: Tx, r: Record) {
    (tx.Revoking? || tx.Flagged?) && Wide(tx.alert) && Wide(r.alert) ==> r.jti !in tx.jtis
  }

  ghost predicate Inv(w: World) {
    TokensOk(w) && Listings(w) && TxsOk(w) && RecordsOk(w)
  }

  // ----- Every step keeps the invariant ------------------------------------------------------

  lemma TokensKept(w: World, e: Event)
    requires TokensOk(w) && Enabled(w, e)
    ensures TokensOk(Apply(w, e))
  {}

  lemma BlacklistGrows(w: World, e: Event)
    requires Enabled(w, e)
    ensures w.blacklist.Keys <= Apply(w, e).blacklist.Keys
  {}

  lemma TxListedKept(w: World, e: Event, p: Pid)
    requires Enabled(w, e) && p in Apply(w, e).txs
    requires p in w.txs ==> TxShape(w.txs[p]) && TxListed(w.blacklist, w.txs[p])
    ensures TxListed(Apply(w, e).blacklist, Apply(w, e).txs[p])
  {
    BlacklistGrows(w, e);
  }

  lemma DeletersListed(w: World, e: Event, p: Pid)
    requires Listings(w) && Enabled(w, e)
    requires p in Apply(w, e).deleters && Apply(w, e).deleters[p].Blacklisted?
    ensures Apply(w, e).deleters[p].jti in Apply(w, e).blacklist
  {
    BlacklistGrows(w, e);
  }

  lemma RecordsListed(w: World, e: Event, i: nat)
    requires Listings(w) && TxsOk(w) && Enabled(w, e) && i < |Apply(w, e).records|
    ensures Apply(w, e).records[i].jti in Apply(w, e).blacklist
  {
    BlacklistGrows(w, e);
    if e.TxCommit? {
      assert TxListed(w.blacklist, w.txs[e.pid]) && TxShape(w.txs[e.pid]);
    } else {
      QuietRecords(w, e);
    }
  }

  lemma ListingsKept(w: World, e: Event)
    requires Listings(w) && TxsOk(w) && Enabled(w, e)
    ensures Listings(Apply(w, e))
  {
    var w' := Apply(w, e);
    forall i | 0 <= i < |w'.records| ensures w'.records[i].jti in w'.blacklist { RecordsListed(w, e, i); }
    forall p | p in w'.deleters && w'.deleters[p].Blacklisted? ensures w'.deleters[p].jti in w'.blacklist {
      DeletersListed(w, e, p);
    }
    forall p | p in w'.txs ensures TxListed(w'.blacklist, w'.txs[p]) { TxListedKept(w, e, p); }
  }

  /** Sessions are never deleted, never change hands and never lose their flag. */
  lemma SessionsKept(w: World, e: Event)
    requires Enabled(w, e)
    ensures forall j :: j in w.sessions ==>
              && j in Apply(w, e).sessions
              && Apply(w, e).sessions[j].user == w.sessions[j].user
              && (w.sessions[j].revoked ==> Apply(w, e).sessions[j].revoked)
  {}

  lemma IdleTxSelection(w: World, e: Event, p: Pid)
    requires Enabled(w, e) && p in w.txs && TxSelection(w, w.txs[p])
    ensures TxSelection(Apply(w, e), w.txs[p])
  {
    SessionsKept(w, e);
  }

  /** What a SELECT returned is what the transaction then works on. */
  lemma SelectedTxSelection(w: World, p: Pid, jtis: seq<Jti>)
    requires Enabled(w, TxSelect(p, jtis))
    ensures TxSelection(Apply(w, TxSelect(p, jtis)), Apply(w, TxSelect(p, jtis)).txs[p])
  {
    forall k | 0 <= k < |jtis| ensures jtis[k] in Unrevoked(w.sessions, w.txs[p].alert.userId) {
      assert jtis[k] in jtis;
    }
  }

  lemma TxSelectionKept(w: World, e: Event, p: Pid)
    requires TxsOk(w) && Enabled(w, e)
    requires p in Apply(w, e).txs
    ensures TxShape(Apply(w, e).txs[p]) && TxSelection(Apply(w, e), Apply(w, e).txs[p])
  {
    if p in w.txs {
      assert TxShape(w.txs[p]) && TxSelection(w, w.txs[p]);
      if e.TxSelect? && e.pid == p {
        SelectedTxSelection(w, p, e.jtis);
      } else {
        IdleTxSelection(w, e, p);
      }
    }
  }

  /** A transaction keeps its alert, and takes its lock and its pending row by one step each. */
  lemma TxAdvances(w: World, e: Event, p: Pid)
    requires Enabled(w, e) && p in Apply(w, e).txs
    ensures var tx := Apply(w, e).txs[p];
            && (p !in w.txs ==> tx.Begun?)
            && (p in w.txs ==>
                  && tx.alert == w.txs[p].alert
                  && (HoldsLock(tx) ==> HoldsLock(w.txs[p]) || e == TxLock(p))
                  && (Pending(tx) ==> Pending(w.txs[p]) || (e == TxInsert(p) && tx.alert.id !in w.alerts)))
  {}

  lemma LocksKept(w: World, e: Event)
    requires LocksExclusive(w) && Enabled(w, e)
    ensures LocksExclusive(Apply(w, e))
  {
    forall p | p in Apply(w, e).txs { TxAdvances(w, e, p); }
  }

  /** Alert ids are recorded by the commit of the transaction that has them pending, which ends with it. */
  lemma IdsCommitted(w: World, e: Event, id: AlertId)
    requires Enabled(w, e) && id in Apply(w, e).alerts && id !in w.alerts
    ensures e.TxCommit? && Pending(w.txs[e.pid]) && w.txs[e.pid].alert.id == id && e.pid !in Apply(w, e).txs
  {}

  lemma PendingIsFresh(w: World, e: Event, p: Pid)
    requires IdsExclusive(w) && Enabled(w, e)
    requires p in Apply(w, e).txs && Pending(Apply(w, e).txs[p])
    ensures Apply(w, e).txs[p].alert.id !in Apply(w, e).alerts
  {
    var id := Apply(w, e).txs[p].alert.id;
    TxAdvances(w, e, p);
    if id in Apply(w, e).alerts {
      IdsCommitted(w, e, id);
    }
  }

  lemma PendingApart(w: World, e: Event, p: Pid, q: Pid)
    requires IdsExclusive(w) && Enabled(w, e) && p != q
    requires p in Apply(w, e).txs && Pending(Apply(w, e).txs[p])
    requires q in Apply(w, e).txs && Pending(Apply(w, e).txs[q])
    ensures Apply(w, e).txs[p].alert.id != Apply(w, e).txs[q].alert.id
  {
    TxAdvances(w, e, p);
    TxAdvances(w, e, q);
  }

  lemma IdsKept(w: World, e: Event)
    requires IdsExclusive(w) && Enabled(w, e)
    ensures IdsExclusive(Apply(w, e))
  {
    var w' := Apply(w, e);
    forall p | p in w'.txs && Pending(w'.txs[p]) ensures w'.txs[p].alert.id !in w'.alerts {
      PendingIsFresh(w, e, p);
    }
    forall p, q | p in w'.txs && q in w'.txs && p != q && Pending(w'.txs[p]) && Pending(w'.txs[q])
      ensures w'.txs[p].alert.id != w'.txs[q].alert.id
    {
      PendingApart(w, e, p, q);
    }
  }

  lemma TxsKept(w: World, e: Event)
    requires TxsOk(w) && Enabled(w, e)
    ensures TxsOk(Apply(w, e))
  {
    var w' := Apply(w, e);
    forall p | p in w'.txs ensures TxShape(w'.txs[p]) && TxSelection(w', w'.txs[p]) {
      TxSelectionKept(w, e, p);
    }
    LocksKept(w, e);
    IdsKept(w, e);
  }

  /** Only the commit of a pending transaction records anything. */
  lemma QuietRecords(w: World, e: Event)
    requires Enabled(w, e) && !(e.TxCommit? && Pending(w.txs[e.pid]))
    ensures Apply(w, e).records == w.records && Apply(w, e).alerts == w.alerts
  {}

  /** Whatever a transaction does next, it does not come to a token that a user-wide alert recorded. */
  lemma UnrecordedKept(w: World, e: Event, p: Pid, r: Record)
    requires Enabled(w, e) && p in Apply(w, e).txs
    requires Wide(r.alert) ==> r.jti in w.sessions && w.sessions[r.jti].revoked
    requires p in w.txs ==> Unrecorded(w.txs[p], r)
    ensures Unrecorded(Apply(w, e).txs[p], r)
  {}

  lemma RecordsKept(w: World, e: Event)
    requires Inv(w) && Enabled(w, e)
    ensures RecordsOk(Apply(w, e))
  {
    if e.TxCommit? && Pending(w.txs[e.pid]) {
      CommitRecordsOk(w, e.pid);
    } else {
      SessionsKept(w, e);
      QuietRecords(w, e);
      forall p, i | p in Apply(w, e).txs && 0 <= i < |w.records|
        ensures Unrecorded(Apply(w, e).txs[p], w.records[i])
      {
        UnrecordedKept(w, e, p, w.records[i]);
      }
    }
  }

  /** The rows a transaction commits are compatible with the committed ones and with each other. */
  lemma CommitCompatible(w: World, pid: Pid)
    requires Inv(w) && Enabled(w, TxCommit(pid)) && Pending(w.txs[pid])
    ensures var records := Apply(w, TxCommit(pid)).records;
            forall i, j :: 0 <= i < j < |records| ==> Compatible(records[i], records[j])
  {
    var tx, records := w.txs[pid], Apply(w, TxCommit(pid)).records;
    assert TxShape(tx);
    forall i, j | 0 <= i < j < |records| && |w.records| <= j ensures Compatible(records[i], records[j]) {
      assert records[j] == Record(tx.jtis[j - |w.records|], tx.alert);
      if i < |w.records| {
        assert records[i] == w.records[i] && Unrecorded(tx, w.records[i]);
      } else {
        assert records[i] == Record(tx.jtis[i - |w.records|], tx.alert);
      }
    }
  }

  /** No other transaction is about to record a token that this commit recorded. */
  lemma CommitUnrecorded(w: World, pid: Pid, p: Pid, i: nat)
    requires Inv(w) && Enabled(w, TxCommit(pid)) && Pending(w.txs[pid])
    requires p in w.txs && p != pid && |w.records| <= i < |Apply(w, TxCommit(pid)).records|
    ensures Unrecorded(w.txs[p], Apply(w, TxCommit(pid)).records[i])
  {
    var tx, k := w.txs[pid], i - |w.records|;
    assert Apply(w, TxCommit(pid)).records[i] == Record(tx.jtis[k], tx.alert);
    assert TxSelection(w, tx) && TxSelection(w, w.txs[p]);
  }

  lemma CommitRecordsOk(w: World, pid: Pid)
    requires Inv(w) && Enabled(w, TxCommit(pid)) && Pending(w.txs[pid])
    ensures RecordsOk(Apply(w, TxCommit(pid)))
  {
    var tx, w' := w.txs[pid], Apply(w, TxCommit(pid));
    assert TxShape(tx) && TxSelection(w, tx);
    CommitCompatible(w, pid);
    forall p, i | p in w'.txs && 0 <= i < |w'.records| ensures Unrecorded(w'.txs[p], w'.records[i]) {
      if i < |w.records| {
        assert Unrecorded(w.txs[p], w.records[i]);
      } else {
        CommitUnrecorded(w, pid, p, i);
      }
    }
  }

  lemma StepKeepsInv(w: World, e: Event)
    requires Inv(w) && Enabled(w, e)
    ensures Inv(Apply(w, e))
  {
    TokensKept(w, e);
    ListingsKept(w, e);
    TxsKept(w, e);
    RecordsKept(w, e);
  }

  lemma RunKeepsInv(w: World, es: seq<Event>, w': World)
    requires Inv(w) && Runs(w, es, w')
    ensures Inv(w')
    decreases |es|
  {
    if es == [] {
    } else {
      StepKeepsInv(w, es[0]);
      RunKeepsInv(Apply(w, es[0]), es[1..], w');
    }
  }

  // ----- What holds over every run -----------------------------------------------------------

  lemma Reachable(w0: World, es: seq<Event>, w: World)
    requires Initial(w0) && Runs(w0, es, w)
    ensures Inv(w)
  {
    RunKeepsInv(w0, es, w);
  }

  lemma OneStepLater(w: World, e: Event)
    requires Enabled(w, e)
    ensures w.records <= Apply(w, e).records
    ensures forall j :: j in w.tokens ==> j in Apply(w, e).tokens && Apply(w, e).tokens[j] == w.tokens[j]
    ensures forall j :: j in w.sessions ==>
              j in Apply(w, e).sessions && (w.sessions[j].revoked ==> Apply(w, e).sessions[j].revoked)
  {
    SessionsKept(w, e);
  }

  /** A flag, a record and a token never disappear. */
  lemma RevokedForever(w: World, es: seq<Event>, w': World)
    requires Runs(w, es, w')
    ensures forall j :: j in w.sessions ==> j in w'.sessions && (w.sessions[j].revoked ==> w'.sessions[j].revoked)
    ensures w.records <= w'.records
    ensures forall j :: j in w.tokens ==> j in w'.tokens && w'.tokens[j] == w.tokens[j]
    decreases |es|
  {
    if es == [] {
    } else {
      OneStepLater(w, es[0]);
      RevokedForever(Apply(w, es[0]), es[1..], w');
    }
  }

  /** The session of this token is flagged, or a revocation of it is recorded. */
  predicate IsRevoked(w: World, j: Jti) {
    || (j in w.sessions && w.sessions[j].revoked)
    || (exists i :: 0 <= i < |w.records| && w.records[i].jti == j)
  }

  /** A token is on the blacklist before its revocation is recorded: in every reachable world, each
      recorded token has an entry. */
  lemma ListedBeforeRecorded(w0: World, es: seq<Event>, w: World, i: nat)
    requires Initial(w0) && Runs(w0, es, w) && i < |w.records|
    ensures w.records[i].jti in w.blacklist
  {
    Reachable(w0, es, w);
  }

  /** User-wide alerts together record a token at most once, and one alert never records it twice,
      whatever transactions run concurrently. */
  lemma WideAlertsRecordOnce(w0: World, es: seq<Event>, w: World, i: nat, k: nat)
    requires Initial(w0) && Runs(w0, es, w)
    requires i < k < |w.records| && w.records[i].jti == w.records[k].jti
    ensures !(Wide(w.records[i].alert) && Wide(w.records[k].alert))
    ensures w.records[i].alert.id != w.records[k].alert.id
  {
    Reachable(w0, es, w);
    assert Compatible(w.records[i], w.records[k]);
  }

  /** When a user-wide transaction commits, every session its SELECT saw is flagged, recorded under
      its alert and on the blacklist, and its user has no unrevoked session that existed at its UPDATE. */
  lemma CommitCompletes(w0: World, es: seq<Event>, w: World, pid: Pid)
    requires Initial(w0) && Runs(w0, es, w)
    requires Enabled(w, TxCommit(pid)) && w.txs[pid].Flagged?
    ensures var w', tx := Apply(w, TxCommit(pid)), w.txs[pid];
            && (forall j :: j in tx.jtis ==>
                  && j in w'.sessions && w'.sessions[j] == Session(tx.alert.userId, true)
                  && Record(j, tx.alert) in w'.records
                  && j in w'.blacklist)
            && (forall j :: j in tx.flags && j in w'.sessions ==> w'.sessions[j].revoked)
            && tx.alert.id in w'.alerts
  {
    Reachable(w0, es, w);
    var w', tx := Apply(w, TxCommit(pid)), w.txs[pid];
    assert TxShape(tx) && TxSelection(w, tx) && TxListed(w.blacklist, tx);
    forall j | j in tx.jtis
      ensures j in w'.sessions && w'.sessions[j] == Session(tx.alert.userId, true)
      ensures Record(j, tx.alert) in w'.records && j in w'.blacklist
    {
      var k :| 0 <= k < |tx.jtis| && tx.jtis[k] == j;
      assert tx.jtis[k] in w.blacklist;
      assert RecordsOf(tx.alert, tx.jtis)[k] == Record(j, tx.alert);
      assert w'.records[|w.records| + k] == Record(j, tx.alert);
    }
  }

  // ----- Exactly once, concurrently -------------------------------------------------------------------

  /** What one alert recorded, and the sessions it flagged. */
  datatype Block = Block(alert: Alert, jtis: seq<Jti>, flags: set<Jti>)

  function BlockOf(tx: Tx): Block
    requires Pending(tx)
  {
    Block(tx.alert, if tx.Fresh? then [] else tx.jtis, if tx.Flagged? then tx.flags else {})
  }

  function RowsOf(blocks: seq<Block>): seq<Record> {
    if blocks == [] then []
    else
      var last := blocks[|blocks| - 1];
      RowsOf(blocks[..|blocks| - 1]) + RecordsOf(last.alert, last.jtis)
  }

  /** The table holds these blocks one after the other: one for each recorded alert id, and in each block
      different tokens, or the one token its alert names. */
  ghost predicate Written(records: seq<Record>, alerts: set<AlertId>, blocks: seq<Block>) {
    && records == RowsOf(blocks)
    && (forall i, k :: 0 <= i < k < |blocks| ==> blocks[i].alert.id != blocks[k].alert.id)
    && alerts == IdsOf(blocks)
    && (forall i :: 0 <= i < |blocks| ==> BlockOk(blocks[i]))
  }

  function IdsOf(blocks: seq<Block>): set<AlertId> {
    set b | b in blocks :: b.alert.id
  }

  predicate BlockOk(b: Block) {
    Distinct(b.jtis) && (!Wide(b.alert) ==> b.jtis == [b.alert.jti] && b.flags == {})
  }

  predicate Swept(blocks: seq<Block>, j: Jti) {
    exists i :: 0 <= i < |blocks| && j in blocks[i].flags
  }

  /** A session is flagged exactly when a deletion or one of these blocks flagged it. */
  ghost predicate FlagsWritten(sessions: map<Jti, Session>, blocks: seq<Block>, deleted: set<Jti>) {
    forall j :: j in sessions ==> (sessions[j].revoked <==> j in deleted || Swept(blocks, j))
  }

  function DeletedBy(w: World, e: Event): set<Jti> {
    if e.DeleteFlag? && e.pid in w.deleters then {w.deleters[e.pid].jti} else {}
  }

  /** The sessions that deletions flagged in this run. */
  ghost function DeletedIn(w: World, es: seq<Event>, w': World): set<Jti>
    requires Runs(w, es, w')
    decreases |es|
  {
    if es == [] then {} else DeletedBy(w, es[0]) + DeletedIn(Apply(w, es[0]), es[1..], w')
  }

  lemma RowsSnoc(blocks: seq<Block>, b: Block)
    ensures RowsOf(blocks + [b]) == RowsOf(blocks) + RecordsOf(b.alert, b.jtis)
  {
    assert (blocks + [b])[..|blocks|] == blocks;
  }

  lemma IdsSnoc(blocks: seq<Block>, b: Block)
    ensures IdsOf(blocks + [b]) == IdsOf(blocks) + {b.alert.id}
    ensures forall i :: 0 <= i < |blocks| ==> blocks[i].alert.id in IdsOf(blocks)
  {
    assert forall i :: 0 <= i < |blocks| ==> blocks[i] in blocks;
  }

  lemma SweptSnoc(blocks: seq<Block>, b: Block, j: Jti)
    ensures Swept(blocks + [b], j) <==> Swept(blocks, j) || j in b.flags
  {
    var all := blocks + [b];
    assert all[|blocks|] == b && forall i :: 0 <= i < |blocks| ==> all[i] == blocks[i];
  }

  lemma WrittenOn(records: seq<Record>, alerts: set<AlertId>, blocks: seq<Block>, b: Block)
    requires Written(records, alerts, blocks) && b.alert.id !in alerts && BlockOk(b)
    ensures Written(records + RecordsOf(b.alert, b.jtis), alerts + {b.alert.id}, blocks + [b])
  {
    RowsSnoc(blocks, b);
    IdsSnoc(blocks, b);
  }

  /** What a transaction commits is a block of a new alert id. */
  lemma CommitsBlock(w: World, pid: Pid)
    requires TxsOk(w) && Enabled(w, TxCommit(pid)) && Pending(w.txs[pid])
    ensures var b, w' := BlockOf(w.txs[pid]), Apply(w, TxCommit(pid));
            && w'.records == w.records + RecordsOf(b.alert, b.jtis) && w'.alerts == w.alerts + {b.alert.id}
            && w'.sessions == Flag(w.sessions, b.flags)
            && b.alert.id !in w.alerts && BlockOk(b)
  {
    assert TxShape(w.txs[pid]);
  }

  /** These are sessions of this user. */
  predicate Of(sessions: map<Jti, Session>, flags: set<Jti>, user: User) {
    forall j :: j in flags ==> j in sessions && sessions[j].user == user
  }

  /** Flagged are known sessions only, and by an alert only those of its user. */
  ghost predicate Known(w: World, blocks: seq<Block>, deleted: set<Jti>) {
    && deleted <= w.sessions.Keys
    && (forall i :: 0 <= i < |blocks| ==> Of(w.sessions, blocks[i].flags, blocks[i].alert.userId))
    && (forall p :: p in w.deleters ==> w.deleters[p].jti in w.sessions)
    && (forall p :: p in w.txs && w.txs[p].Flagged? ==> Of(w.sessions, w.txs[p].flags, w.txs[p].alert.userId))
  }

  lemma TxFlagsKnown(w: World, e: Event, p: Pid)
    requires Enabled(w, e) && p in Apply(w, e).txs && Apply(w, e).txs[p].Flagged?
    requires p in w.txs && w.txs[p].Flagged? ==> Of(w.sessions, w.txs[p].flags, w.txs[p].alert.userId)
    ensures Of(Apply(w, e).sessions, Apply(w, e).txs[p].flags, Apply(w, e).txs[p].alert.userId)
  {
    SessionsKept(w, e);
  }

  lemma KnownKept(w: World, e: Event, blocks: seq<Block>, deleted: set<Jti>)
    requires Known(w, blocks, deleted) && Enabled(w, e)
    ensures Known(Apply(w, e), blocks, deleted + DeletedBy(w, e))
  {
    SessionsKept(w, e);
    forall p | p in Apply(w, e).txs && Apply(w, e).txs[p].Flagged?
      ensures Of(Apply(w, e).sessions, Apply(w, e).txs[p].flags, Apply(w, e).txs[p].alert.userId)
    {
      TxFlagsKnown(w, e, p);
    }
  }

  lemma FlagsKept(w: World, e: Event, blocks: seq<Block>, deleted: set<Jti>)
    requires FlagsWritten(w.sessions, blocks, deleted) && Known(w, blocks, deleted) && Enabled(w, e)
    requires !(e.TxCommit? && Pending(w.txs[e.pid]))
    ensures FlagsWritten(Apply(w, e).sessions, blocks, deleted + DeletedBy(w, e))
  {}

  lemma FlagsOn(sessions: map<Jti, Session>, blocks: seq<Block>, deleted: set<Jti>, b: Block)
    requires FlagsWritten(sessions, blocks, deleted)
    ensures FlagsWritten(Flag(sessions, b.flags), blocks + [b], deleted)
  {
    forall j | j in sessions { SweptSnoc(blocks, b, j); }
  }

  /** The tables are told by these blocks and these deletions. */
  ghost predicate Told(w: World, blocks: seq<Block>, deleted: set<Jti>) {
    Written(w.records, w.alerts, blocks) && FlagsWritten(w.sessions, blocks, deleted) && Known(w, blocks, deleted)
  }

  lemma KnownSnoc(w: World, blocks: seq<Block>, deleted: set<Jti>, b: Block)
    requires Known(w, blocks, deleted) && Of(w.sessions, b.flags, b.alert.userId)
    ensures Known(w, blocks + [b], deleted)
  {}

  lemma KnownByCommit(w: World, pid: Pid, blocks: seq<Block>, deleted: set<Jti>)
    requires Known(w, blocks, deleted) && Enabled(w, TxCommit(pid)) && Pending(w.txs[pid])
    ensures Known(Apply(w, TxCommit(pid)), blocks + [BlockOf(w.txs[pid])], deleted)
  {
    KnownSnoc(w, blocks, deleted, BlockOf(w.txs[pid]));
    KnownKept(w, TxCommit(pid), blocks + [BlockOf(w.txs[pid])], deleted);
    assert deleted + DeletedBy(w, TxCommit(pid)) == deleted;
  }

  lemma ToldByCommit(w: World, pid: Pid, blocks: seq<Block>, deleted: set<Jti>)
    requires TxsOk(w) && Told(w, blocks, deleted) && Enabled(w, TxCommit(pid)) && Pending(w.txs[pid])
    ensures Told(Apply(w, TxCommit(pid)), blocks + [BlockOf(w.txs[pid])], deleted)
  {
    var b := BlockOf(w.txs[pid]);
    CommitsBlock(w, pid);
    WrittenOn(w.records, w.alerts, blocks, b);
    FlagsOn(w.sessions, blocks, deleted, b);
    KnownByCommit(w, pid, blocks, deleted);
  }

  lemma ToldNext(w: World, e: Event, blocks: seq<Block>, deleted: set<Jti>) returns (blocks': seq<Block>)
    requires TxsOk(w) && Told(w, blocks, deleted) && Enabled(w, e)
    ensures Told(Apply(w, e), blocks', deleted + DeletedBy(w, e))
  {
    if e.TxCommit? && Pending(w.txs[e.pid]) {
      ToldByCommit(w, e.pid, blocks, deleted);
      blocks' := blocks + [BlockOf(w.txs[e.pid])];
      assert deleted + DeletedBy(w, e) == deleted;
    } else {
      blocks' := blocks;
      QuietRecords(w, e);
      FlagsKept(w, e, blocks, deleted);
      KnownKept(w, e, blocks, deleted);
    }
  }

  lemma {:induction false} ToldOverRun(w: World, es: seq<Event>, w': World, blocks: seq<Block>, deleted: set<Jti>)
    returns (blocks': seq<Block>)
    requires Inv(w) && Told(w, blocks, deleted) && Runs(w, es, w')
    ensures Told(w', blocks', deleted + DeletedIn(w, es, w'))
    decreases |es|
  {
    if es == [] {
      blocks' := blocks;
      assert deleted + DeletedIn(w, es, w') == deleted;
    } else {
      var gone := DeletedBy(w, es[0]);
      blocks' := ToldNext(w, es[0], blocks, deleted);
      StepKeepsInv(w, es[0]);
      blocks' := ToldOverRun(Apply(w, es[0]), es[1..], w', blocks', deleted + gone);
      assert (deleted + gone) + DeletedIn(Apply(w, es[0]), es[1..], w') == deleted + DeletedIn(w, es, w');
    }
  }

  /** However many transactions run concurrently, fail or are delivered again: the recorded rows are one
      block for each alert id in `revoked_alerts`, and nothing else; and the flagged sessions are those
      that deletions flagged, and those that the same blocks did, each among the sessions of its user. */
  lemma RecordedOnce(w0: World, es: seq<Event>, w: World) returns (blocks: seq<Block>)
    requires Initial(w0) && Runs(w0, es, w)
    ensures Written(w.records, w.alerts, blocks)
    ensures FlagsWritten(w.sessions, blocks, DeletedIn(w0, es, w))
    ensures forall i :: 0 <= i < |blocks| ==> Of(w.sessions, blocks[i].flags, blocks[i].alert.userId)
  {
    Reachable(w0, [], w0);
    blocks := ToldOverRun(w0, es, w, [], {});
    assert {} + DeletedIn(w0, es, w) == DeletedIn(w0, es, w);
  }
}

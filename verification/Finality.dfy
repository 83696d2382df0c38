/** When revocation is final: for one token at a time, whatever happens to the others. */
module Finality {
  import opened Tokens
  import opened Alerts
  import opened Revocation

  /** A write at `now` with this lifetime keeps the entry of an access token beyond its `exp`. */
  predicate Covers(w: World, jti: Jti, ttl: nat) {
    jti in w.tokens && w.tokens[jti].lifetime == ACCESS_SECONDS ==>
      Exp(w.tokens[jti]) * 1000 <= w.now + ttl * 1000
  }

  /** Some transaction of the user has run its SELECT but not yet its UPDATE. */
  ghost predicate Sweeping(w: World, user: User) {
    exists p :: p in w.txs && w.txs[p].Revoking? && Wide(w.txs[p].alert) && w.txs[p].alert.userId == user
  }

  /** A direct write to this token's entry, if this step is one, covers what is left of the token. */
  predicate SufficientWrite(w: World, e: Event, j: Jti) {
    e.Overwrite? && e.jti == j && e.ttl > 0 ==> Covers(w, j, e.ttl)
  }

  /** This token's session, if this step opens it, opens outside every sweep of its own user. */
  ghost predicate OutsideSweep(w: World, e: Event, j: Jti) {
    e.OpenSession? && e.jti == j ==> !Sweeping(w, e.user)
  }

  /** The blacklist entry of `j`, if `j` is an access token, outlives its `exp`. */
  predicate Covered(w: World, j: Jti) {
    && j in w.blacklist
    && (j in w.tokens && w.tokens[j].lifetime == ACCESS_SECONDS ==> Exp(w.tokens[j]) * 1000 <= w.blacklist[j])
  }

  /** The transaction has written this token's entry, or is going to flag its session. */
  predicate TxTouched(tx: Tx, j: Jti) {
    match tx
    case Revoking(_, jtis, done, listed) => exists k :: 0 <= k < |jtis| && k < Reached(tx) && jtis[k] == j
    case Flagged(_, jtis, flags) => j in jtis || j in flags
    case _ => false
  }

  /** Some path has come past its blacklist write for this token. */
  ghost predicate Touched(w: World, j: Jti) {
    || (j in w.sessions && w.sessions[j].revoked)
    || (exists i :: 0 <= i < |w.records| && w.records[i].jti == j)
    || (exists p :: p in w.deleters && w.deleters[p] == Blacklisted(j))
    || (exists p :: p in w.txs && TxTouched(w.txs[p], j))
  }

  /** The step does not open this token's session in the middle of a sweep of its own user; nor, once
      some path has written its entry, cut that entry short. About other tokens it says nothing. */
  ghost predicate Careful(w: World, e: Event, j: Jti) {
    (Touched(w, j) ==> SufficientWrite(w, e, j)) && OutsideSweep(w, e, j)
  }

  ghost predicate CarefulRun(w: World, es: seq<Event>, w': World, j: Jti)
    requires Runs(w, es, w')
    decreases |es|
  {
    es == [] || (Careful(w, es[0], j) && CarefulRun(Apply(w, es[0]), es[1..], w', j))
  }

  predicate SufficientWrites(w: World, es: seq<Event>, w': World, j: Jti)
    requires Runs(w, es, w')
    decreases |es|
  {
    es == [] || (SufficientWrite(w, es[0], j) && SufficientWrites(Apply(w, es[0]), es[1..], w', j))
  }

  ghost predicate OutsideSweeps(w: World, es: seq<Event>, w': World, j: Jti)
    requires Runs(w, es, w')
    decreases |es|
  {
    es == [] || (OutsideSweep(w, es[0], j) && OutsideSweeps(Apply(w, es[0]), es[1..], w', j))
  }

  // ----- Invariant for one token -------------------------------------------------------------------

  /** A sweep that has not flagged yet has seen the session, if it is one of its user's still unrevoked. */
  predicate TxSees(w: World, tx: Tx, j: Jti) {
    tx.Revoking? && Wide(tx.alert) && j in Unrevoked(w.sessions, tx.alert.userId) ==> j in tx.jtis
  }

  ghost predicate Seen(w: World, j: Jti) {
    forall p :: p in w.txs ==> TxSees(w, w.txs[p], j)
  }

  ghost predicate Secured(w: World, j: Jti) {
    Seen(w, j) && (Touched(w, j) ==> Covered(w, j))
  }

  lemma CoveredKept(w: World, e: Event, j: Jti)
    requires TokensOk(w) && Enabled(w, e) && SufficientWrite(w, e, j) && Covered(w, j)
    ensures Covered(Apply(w, e), j)
  {
    if j in w.tokens {
      assert w.tokens[j].issuedAt / 1000 * 1000 <= w.tokens[j].issuedAt;
    }
  }

  lemma WriteCovers(w: World, j: Jti, ttl: nat)
    requires TokensOk(w) && ACCESS_SECONDS <= ttl
    ensures Covered(w.(blacklist := List(w.blacklist, j, ttl, w.now)), j)
  {
    if j in w.tokens {
      assert w.tokens[j].issuedAt / 1000 * 1000 <= w.tokens[j].issuedAt;
    }
  }

  /** The two statements that write an entry of their own accord. */
  predicate Writes(w: World, e: Event, j: Jti) {
    match e
    case DeleteList(pid) => pid in w.deleters && w.deleters[pid].jti == j
    case TxList(pid) => pid in w.txs && w.txs[pid].Revoking? && w.txs[pid].done < |w.txs[pid].jtis|
                        && w.txs[pid].jtis[w.txs[pid].done] == j
    case _ => false
  }

  lemma WritesCover(w: World, e: Event, j: Jti)
    requires TokensOk(w) && Enabled(w, e) && Writes(w, e, j)
    ensures Covered(Apply(w, e), j)
  {
    WriteCovers(w, j, if e.DeleteList? then SESSION_TTL else REVOKER_TTL);
  }

  /** A transaction comes to touch the token by writing its entry, or by an UPDATE that it has seen. */
  lemma TxTouches(w: World, e: Event, j: Jti, p: Pid)
    requires Enabled(w, e) && p in Apply(w, e).txs && TxTouched(Apply(w, e).txs[p], j) && !Writes(w, e, j)
    requires p in w.txs ==> TxShape(w.txs[p]) && TxSees(w, w.txs[p], j)
    ensures p in w.txs && TxTouched(w.txs[p], j)
  {
    var tx' := Apply(w, e).txs[p];
    if p in w.txs && e == TxUpdate(p) {
      var tx := w.txs[p];
      assert j in tx.jtis;
      var k :| 0 <= k < |tx.jtis| && tx.jtis[k] == j;
      assert k < Reached(tx);
    } else if p in w.txs && (e == TxList(p) || e == TxRecord(p)) {
      var k :| 0 <= k < |tx'.jtis| && k < Reached(tx') && tx'.jtis[k] == j;
      assert k < Reached(w.txs[p]);
    }
  }

  /** Whatever else there is to touch, it was touched before. */
  lemma SessionTouched(w: World, e: Event, j: Jti)
    requires TxsOk(w) && Enabled(w, e)
    requires j in Apply(w, e).sessions && Apply(w, e).sessions[j].revoked
    ensures Touched(w, j)
  {
    if e.TxCommit? && j in w.sessions && !w.sessions[j].revoked {
      assert TxTouched(w.txs[e.pid], j);
    }
  }

  lemma RecordTouched(w: World, e: Event, j: Jti, i: nat)
    requires TxsOk(w) && Enabled(w, e) && i < |Apply(w, e).records| && Apply(w, e).records[i].jti == j
    ensures Touched(w, j)
  {
    if i < |w.records| {
      assert w.records[i] == Apply(w, e).records[i];
    } else {
      var tx := w.txs[e.pid];
      assert Apply(w, e).records[i] == RecordsOf(tx.alert, tx.jtis)[i - |w.records|];
      assert tx.jtis[i - |w.records|] == j;
      assert TxShape(tx) && TxTouched(tx, j);
    }
  }

  lemma TouchedBefore(w: World, e: Event, j: Jti)
    requires TxsOk(w) && Seen(w, j) && Enabled(w, e) && Touched(Apply(w, e), j) && !Writes(w, e, j)
    ensures Touched(w, j)
  {
    var w' := Apply(w, e);
    if j in w'.sessions && w'.sessions[j].revoked {
      SessionTouched(w, e, j);
    } else if i :| 0 <= i < |w'.records| && w'.records[i].jti == j {
      RecordTouched(w, e, j, i);
    } else if p :| p in w'.deleters && w'.deleters[p] == Blacklisted(j) {
      assert p in w.deleters && w.deleters[p] == Blacklisted(j);
    } else {
      var p :| p in w'.txs && TxTouched(w'.txs[p], j);
      if p in w.txs { assert TxShape(w.txs[p]) && TxSees(w, w.txs[p], j); }
      TxTouches(w, e, j, p);
    }
  }

  lemma StillUnrevoked(w: World, e: Event, j: Jti, user: User)
    requires Enabled(w, e) && j in Unrevoked(Apply(w, e).sessions, user)
    ensures j in Unrevoked(w.sessions, user) || e == OpenSession(j, user)
  {}

  /** A sweep holds the token ids it held, or those its SELECT has just returned. */
  lemma SweepsFrom(w: World, e: Event, p: Pid)
    requires Enabled(w, e) && p in Apply(w, e).txs && Apply(w, e).txs[p].Revoking? && Wide(Apply(w, e).txs[p].alert)
    ensures var tx' := Apply(w, e).txs[p];
            && p in w.txs && w.txs[p].alert == tx'.alert
            && ((w.txs[p].Revoking? && w.txs[p].jtis == tx'.jtis) || e == TxSelect(p, tx'.jtis))
  {}

  lemma SeesKept(w: World, e: Event, j: Jti, p: Pid)
    requires Seen(w, j) && Enabled(w, e) && OutsideSweep(w, e, j) && p in Apply(w, e).txs
    ensures TxSees(Apply(w, e), Apply(w, e).txs[p], j)
  {
    var tx' := Apply(w, e).txs[p];
    if tx'.Revoking? && Wide(tx'.alert) && j in Unrevoked(Apply(w, e).sessions, tx'.alert.userId) {
      SweepsFrom(w, e, p);
      StillUnrevoked(w, e, j, tx'.alert.userId);
      assert TxSees(w, w.txs[p], j);
    }
  }

  lemma SeenKept(w: World, e: Event, j: Jti)
    requires Seen(w, j) && Enabled(w, e) && OutsideSweep(w, e, j)
    ensures Seen(Apply(w, e), j)
  {
    forall p | p in Apply(w, e).txs ensures TxSees(Apply(w, e), Apply(w, e).txs[p], j) { SeesKept(w, e, j, p); }
  }

  lemma SecuredKept(w: World, e: Event, j: Jti)
    requires Inv(w) && Secured(w, j) && Enabled(w, e) && Careful(w, e, j)
    ensures Secured(Apply(w, e), j)
  {
    SeenKept(w, e, j);
    if Writes(w, e, j) {
      WritesCover(w, e, j);
    } else if Touched(Apply(w, e), j) {
      TouchedBefore(w, e, j);
      CoveredKept(w, e, j);
    }
  }

  lemma {:induction false} SecuredOverRun(w: World, es: seq<Event>, w': World, j: Jti)
    requires Inv(w) && Secured(w, j) && Runs(w, es, w') && CarefulRun(w, es, w', j)
    ensures Secured(w', j)
    decreases |es|
  {
    if es == [] {
    } else {
      SecuredKept(w, es[0], j);
      StepKeepsInv(w, es[0]);
      SecuredOverRun(Apply(w, es[0]), es[1..], w', j);
    }
  }

  // ----- Revocation is final -------------------------------------------------------------------------

  lemma RevokedIsSecured(w0: World, es: seq<Event>, w: World, more: seq<Event>, later: World, j: Jti)
    requires Initial(w0) && Runs(w0, es, w) && CarefulRun(w0, es, w, j)
    requires Runs(w, more, later) && CarefulRun(w, more, later, j) && IsRevoked(w, j)
    ensures IsRevoked(later, j) && Secured(later, j)
  {
    Reachable(w0, [], w0);
    SecuredOverRun(w0, es, w, j);
    Reachable(w0, es, w);
    SecuredOverRun(w, more, later, j);
    RevokedForever(w, more, later);
    if i :| 0 <= i < |w.records| && w.records[i].jti == j {
      assert later.records[i].jti == j;
    }
  }

  /** Revocation is final. However the two paths, blacklist writes and the clock interleave before and
      after an access token was revoked, validating it never succeeds again; all that is asked is that,
      once a path has written this token's entry, no direct write cuts it short, and that its session was
      not opened in the middle of a sweep of its own user. When the blacklist is read later than the expiry
      was checked, the token can only pass if it has expired meanwhile. */
  lemma RevocationIsFinal(w0: World, es: seq<Event>, w: World, more: seq<Event>, later: World, j: Jti)
    requires Initial(w0) && Runs(w0, es, w) && CarefulRun(w0, es, w, j)
    requires Runs(w, more, later) && CarefulRun(w, more, later, j)
    requires j in w.tokens && w.tokens[j].lifetime == ACCESS_SECONDS && IsRevoked(w, j)
    ensures IsRevoked(later, j) && j in later.tokens && later.tokens[j] == w.tokens[j]
    ensures RejectedFrom(later.tokens[j], j, later.blacklist, later.now)
    ensures forall verifiedAt: nat :: Judge(later.tokens[j], j, later.blacklist, verifiedAt, later.now) == Accepted ==>
              Expired(later.tokens[j], later.now)
  {
    RevokedIsSecured(w0, es, w, more, later, j);
    RevokedForever(w, more, later);
    assert Covered(later, j);
    RejectedFromIff(later.tokens[j], j, later.blacklist, later.now);
    ExpiredIff(later.tokens[j], later.now);
  }

  // ----- The two conditions are exact ----------------------------------------------------------------

  /** A direct blacklist write with any lifetime keeps a revoked access token rejected exactly when it
      writes nothing, the token has expired, or the lifetime covers what is left of the token. */
  lemma OverwriteIsSafeIff(w0: World, es: seq<Event>, w: World, j: Jti, ttl: int)
    requires Initial(w0) && Runs(w0, es, w) && CarefulRun(w0, es, w, j)
    requires j in w.tokens && w.tokens[j].lifetime == ACCESS_SECONDS && IsRevoked(w, j)
    ensures RejectedFrom(w.tokens[j], j, Apply(w, Overwrite(j, ttl)).blacklist, w.now) <==>
            ttl <= 0 || Expired(w.tokens[j], w.now) || Covers(w, j, ttl)
  {
    RevokedIsSecured(w0, es, w, [], w, j);
    assert Covered(w, j);
    RejectedFromIff(w.tokens[j], j, Apply(w, Overwrite(j, ttl)).blacklist, w.now);
  }

  /** The entry of an access token, if there is one, outlives its `exp`. */
  predicate EntryLasts(w: World, j: Jti) {
    j in w.blacklist ==> Covered(w, j)
  }

  lemma EntryKept(w: World, e: Event, j: Jti)
    requires TokensOk(w) && EntryLasts(w, j) && Enabled(w, e) && SufficientWrite(w, e, j)
    ensures EntryLasts(Apply(w, e), j)
  {
    if Writes(w, e, j) {
      WritesCover(w, e, j);
    } else if j in w.blacklist {
      CoveredKept(w, e, j);
    }
  }

  lemma {:induction false} EntryOverRun(w: World, es: seq<Event>, w': World, j: Jti)
    requires Inv(w) && EntryLasts(w, j) && Runs(w, es, w') && SufficientWrites(w, es, w', j)
    ensures EntryLasts(w', j)
    decreases |es|
  {
    if es == [] {
    } else {
      EntryKept(w, es[0], j);
      StepKeepsInv(w, es[0]);
      EntryOverRun(Apply(w, es[0]), es[1..], w', j);
    }
  }

  /** Over every run in which direct writes to this token's entry are sufficient, whatever opens and
      sweeps when: an access token is rejected for good exactly when it has expired or has an entry. */
  lemma RejectedIffListed(w0: World, es: seq<Event>, w: World, j: Jti)
    requires Initial(w0) && Runs(w0, es, w) && SufficientWrites(w0, es, w, j)
    requires j in w.tokens && w.tokens[j].lifetime == ACCESS_SECONDS
    ensures RejectedFrom(w.tokens[j], j, w.blacklist, w.now) <==> Expired(w.tokens[j], w.now) || j in w.blacklist
  {
    Reachable(w0, [], w0);
    EntryOverRun(w0, es, w, j);
    RejectedFromIff(w.tokens[j], j, w.blacklist, w.now);
  }

  /** Sessions of the user that the transaction's SELECT did not return. */
  function LateSessions(w: World, tx: Tx): set<Jti>
    requires tx.Revoking?
  {
    set j | j in Unrevoked(w.sessions, tx.alert.userId) && j !in tx.jtis
  }

  predicate IsAccess(w: World, j: Jti) {
    j in w.tokens && w.tokens[j].lifetime == ACCESS_SECONDS
  }

  /** What the UPDATE flags is what the SELECT returned and is not flagged yet, and the late sessions. */
  lemma FlagsAre(w: World, pid: Pid)
    requires Inv(w) && Enabled(w, TxUpdate(pid))
    ensures var tx, flags := w.txs[pid], Apply(w, TxUpdate(pid)).txs[pid].flags;
            && LateSessions(w, tx) <= flags
            && (forall j :: j in flags && j !in LateSessions(w, tx) ==> j in tx.jtis && j in w.blacklist)
            && (forall j :: j in flags ==> j in w.tokens)
  {
    var tx := w.txs[pid];
    assert TxListed(w.blacklist, tx) && TxShape(tx);
    forall j | j in tx.jtis ensures j in w.blacklist {
      var k :| 0 <= k < |tx.jtis| && tx.jtis[k] == j;
    }
  }

  /** Over every such run, at the UPDATE of a sweep: the access tokens it flags are all rejected for good
      exactly when each late one among them has expired or has an entry already. */
  lemma UpdateIsSafeIff(w0: World, es: seq<Event>, w: World, pid: Pid)
    requires Initial(w0) && Runs(w0, es, w) && Enabled(w, TxUpdate(pid))
    requires forall j :: IsAccess(w, j) ==> SufficientWrites(w0, es, w, j)
    ensures var w' := Apply(w, TxUpdate(pid));
            (forall j :: j in w'.txs[pid].flags && IsAccess(w', j) ==>
               RejectedFrom(w'.tokens[j], j, w'.blacklist, w'.now)) <==>
            (forall j :: j in LateSessions(w, w.txs[pid]) && IsAccess(w, j) ==>
               Expired(w.tokens[j], w.now) || j in w.blacklist)
  {
    Reachable(w0, es, w);
    FlagsAre(w, pid);
    forall j | IsAccess(w, j)
      ensures RejectedFrom(w.tokens[j], j, w.blacklist, w.now) <==> Expired(w.tokens[j], w.now) || j in w.blacklist
    {
      RejectedIffListed(w0, es, w, j);
    }
  }

  // ----- A revoked token without an entry ------------------------------------------------------------

  /** A session that opens outside sweeps is on the blacklist whenever some path has come past its write. */
  lemma ListedKept(w: World, e: Event, j: Jti)
    requires Inv(w) && Seen(w, j) && (Touched(w, j) ==> j in w.blacklist) && Enabled(w, e) && OutsideSweep(w, e, j)
    ensures Seen(Apply(w, e), j) && (Touched(Apply(w, e), j) ==> j in Apply(w, e).blacklist)
  {
    SeenKept(w, e, j);
    BlacklistGrows(w, e);
    if Writes(w, e, j) {
      WritesCover(w, e, j);
    } else if Touched(Apply(w, e), j) {
      TouchedBefore(w, e, j);
    }
  }

  lemma {:induction false} ListedOverRun(w: World, es: seq<Event>, w': World, j: Jti)
    requires Inv(w) && Seen(w, j) && (Touched(w, j) ==> j in w.blacklist)
    requires Runs(w, es, w') && OutsideSweeps(w, es, w', j)
    ensures Touched(w', j) ==> j in w'.blacklist
    decreases |es|
  {
    if es == [] {
    } else {
      ListedKept(w, es[0], j);
      StepKeepsInv(w, es[0]);
      ListedOverRun(Apply(w, es[0]), es[1..], w', j);
    }
  }

  /** The first step that opens the session in a sweep. */
  lemma {:induction false} OpenedInSweep(w: World, es: seq<Event>, w': World, j: Jti) returns (k: nat, mid: World)
    requires Runs(w, es, w') && !OutsideSweeps(w, es, w', j)
    ensures k < |es| && Runs(w, es[..k], mid) && es[k].OpenSession? && es[k].jti == j && Sweeping(mid, es[k].user)
    decreases |es|
  {
    if !OutsideSweep(w, es[0], j) {
      k, mid := 0, w;
    } else {
      k, mid := OpenedInSweep(Apply(w, es[0]), es[1..], w', j);
      assert es[..k + 1][0] == es[0] && es[..k + 1][1..] == es[1..][..k];
      k := k + 1;
    }
  }

  /** Over every run whatever: a revoked token without an entry is one whose session opened in the middle
      of a sweep of its own user. */
  lemma RevokedWithoutEntry(w0: World, es: seq<Event>, w: World, j: Jti) returns (k: nat, mid: World)
    requires Initial(w0) && Runs(w0, es, w) && IsRevoked(w, j) && j !in w.blacklist
    ensures k < |es| && Runs(w0, es[..k], mid) && es[k].OpenSession? && es[k].jti == j && Sweeping(mid, es[k].user)
  {
    Reachable(w0, [], w0);
    if OutsideSweeps(w0, es, w, j) {
      ListedOverRun(w0, es, w, j);
      assert false;
    }
    k, mid := OpenedInSweep(w0, es, w, j);
  }

  // ----- Runs that need the conditions ----------------------------------------------------------------

  /** A session is revoked by its own deletion; then its entry is overwritten for one second. */
  const SHORT_RUN := [OpenSession("t1", "u1"), DeleteFind(0, "t1"), DeleteList(0), DeleteFlag(0),
                      Overwrite("t1", 1), Tick(1000)]

  /** The only session, revoked or not, with this entry and this deletion under way. */
  function One(revoked: bool, now: nat, blacklist: Blacklist, deleters: map<Pid, Deleter>): World {
    BARE.(now := now, sessions := map["t1" := Session("u1", revoked)], blacklist := blacklist, deleters := deleters)
  }

  lemma ShortDeletes()
    ensures Runs(BARE, SHORT_RUN[..4], One(true, 0, map["t1" := 900_000], map[]))
  {
    var es, w := SHORT_RUN[..4], One(true, 0, map["t1" := 900_000], map[]);
    var open, found := One(false, 0, map[], map[]), One(false, 0, map[], map[0 := Found("t1")]);
    var listed := One(false, 0, map["t1" := 900_000], map[0 := Blacklisted("t1")]);
    assert listed.deleters - {0} == map[] && Flag(listed.sessions, {"t1"}) == w.sessions;
    assert Apply(listed, es[3]) == w && Runs(w, es[4..], w);
    assert Runs(listed, es[3..], w);
    assert Apply(found, es[2]) == listed;
    assert Runs(found, es[2..], w);
    assert Apply(open, es[1]) == found;
    assert Runs(open, es[1..], w);
    assert Apply(BARE, es[0]) == open;
  }

  lemma ShortOverwrites()
    ensures Runs(One(true, 0, map["t1" := 900_000], map[]), SHORT_RUN[4..], One(true, 1000, map["t1" := 1000], map[]))
  {
    var es, w := SHORT_RUN[4..], One(true, 1000, map["t1" := 1000], map[]);
    var cut := One(true, 0, map["t1" := 1000], map[]);
    assert map["t1" := 900_000]["t1" := 1000] == map["t1" := 1000];
    assert Apply(cut, es[1]) == w && Runs(w, es[2..], w);
    assert Runs(cut, es[1..], w);
    assert Apply(One(true, 0, map["t1" := 900_000], map[]), es[0]) == cut;
  }

  /** That run, from an initial world, ends with a revoked token accepted again. */
  lemma ShortWriteRevives()
    ensures var w := One(true, 1000, map["t1" := 1000], map[]);
            && Initial(BARE) && Runs(BARE, SHORT_RUN, w) && IsRevoked(w, "t1")
            && Judge(w.tokens["t1"], "t1", w.blacklist, w.now, w.now) == Accepted
  {
    ShortDeletes();
    ShortOverwrites();
    RunsConcat(BARE, SHORT_RUN[..4], One(true, 0, map["t1" := 900_000], map[]), SHORT_RUN[4..],
               One(true, 1000, map["t1" := 1000], map[]));
    assert SHORT_RUN[..4] + SHORT_RUN[4..] == SHORT_RUN;
  }

  const SEVERE := Alert("a1", "Account Compromise", "High", "u1", "")

  const BARE := World(0, map["t1" := Token(0, ACCESS_SECONDS)], map[], map[], {}, [], map[], map[])

  /** A user-wide transaction sweeps an empty table; the session opens after its SELECT. */
  const GAP_RUN := [TxBegin(0, SEVERE), TxLock(0), TxInsert(0), TxSelect(0, []), OpenSession("t1", "u1"),
                    TxUpdate(0), TxCommit(0)]

  /** Where that leads. */
  const GAP_WORLD := World(0, map["t1" := Token(0, ACCESS_SECONDS)], map[], map["t1" := Session("u1", true)],
                           {"a1"}, [], map[], map[])

  /** The same world with only this transaction, before its last steps. */
  function Sweep(tx: Tx, sessions: map<Jti, Session>): World {
    BARE.(txs := map[0 := tx], sessions := sessions)
  }

  lemma GapLocks()
    ensures Runs(BARE, GAP_RUN[..2], Sweep(Locked(SEVERE), map[]))
  {
    var es, w := GAP_RUN[..2], Sweep(Locked(SEVERE), map[]);
    assert Apply(BARE, es[0]) == Sweep(Begun(SEVERE), map[]) && Apply(Sweep(Begun(SEVERE), map[]), es[1]) == w;
    assert Runs(w, es[2..], w);
    assert Runs(Sweep(Begun(SEVERE), map[]), es[1..], w);
  }

  lemma GapSelects()
    ensures Runs(Sweep(Locked(SEVERE), map[]), GAP_RUN[2..4], Sweep(Revoking(SEVERE, [], 0, false), map[]))
  {
    var es, w := GAP_RUN[2..4], Sweep(Revoking(SEVERE, [], 0, false), map[]);
    assert Unrevoked(map[], "u1") == {};
    assert Apply(Sweep(Fresh(SEVERE), map[]), es[1]) == w;
    assert Runs(w, es[2..], w);
    assert Runs(Sweep(Fresh(SEVERE), map[]), es[1..], w);
    assert Apply(Sweep(Locked(SEVERE), map[]), es[0]) == Sweep(Fresh(SEVERE), map[]);
  }

  const OPENED := map["t1" := Session("u1", false)]

  lemma GapFlags()
    ensures Runs(Sweep(Revoking(SEVERE, [], 0, false), map[]), GAP_RUN[4..6],
                 Sweep(Flagged(SEVERE, [], {"t1"}), OPENED))
  {
    var es, flagged := GAP_RUN[4..6], Sweep(Flagged(SEVERE, [], {"t1"}), OPENED);
    assert Unrevoked(OPENED, "u1") == {"t1"};
    assert Apply(Sweep(Revoking(SEVERE, [], 0, false), OPENED), es[1]) == flagged;
    assert Runs(flagged, es[2..], flagged);
    assert Runs(Sweep(Revoking(SEVERE, [], 0, false), OPENED), es[1..], flagged);
    assert Apply(Sweep(Revoking(SEVERE, [], 0, false), map[]), es[0]) == Sweep(Revoking(SEVERE, [], 0, false), OPENED);
  }

  lemma GapCommits()
    ensures Runs(Sweep(Flagged(SEVERE, [], {"t1"}), OPENED), GAP_RUN[6..], GAP_WORLD)
  {
    var flagged := Sweep(Flagged(SEVERE, [], {"t1"}), OPENED);
    assert Flag(OPENED, {"t1"}) == GAP_WORLD.sessions && RecordsOf(SEVERE, []) == [] && flagged.txs - {0} == map[];
    assert Apply(flagged, GAP_RUN[6..][0]) == GAP_WORLD;
    assert Runs(GAP_WORLD, GAP_RUN[6..][1..], GAP_WORLD);
  }

  /** That run, from an initial world, ends with the session flagged and its token accepted. */
  lemma GapSessionStaysValid()
    ensures Initial(BARE) && Runs(BARE, GAP_RUN, GAP_WORLD)
    ensures IsRevoked(GAP_WORLD, "t1")
    ensures Judge(GAP_WORLD.tokens["t1"], "t1", GAP_WORLD.blacklist, GAP_WORLD.now, GAP_WORLD.now) == Accepted
  {
    GapLocks();
    GapSelects();
    GapFlags();
    GapCommits();
    var locked, swept := Sweep(Locked(SEVERE), map[]), Sweep(Revoking(SEVERE, [], 0, false), map[]);
    var flagged := Sweep(Flagged(SEVERE, [], {"t1"}), OPENED);
    RunsConcat(BARE, GAP_RUN[..2], locked, GAP_RUN[2..4], swept);
    RunsConcat(BARE, GAP_RUN[..2] + GAP_RUN[2..4], swept, GAP_RUN[4..6], flagged);
    RunsConcat(BARE, GAP_RUN[..2] + GAP_RUN[2..4] + GAP_RUN[4..6], flagged, GAP_RUN[6..], GAP_WORLD);
    assert GAP_RUN[..2] + GAP_RUN[2..4] + GAP_RUN[4..6] + GAP_RUN[6..] == GAP_RUN;
  }
}

/** `routes/mfa.ts` with requests interleaved at their awaits: two verifications of one challenge may both
    find it open. */
module MfaInterleaving {
  import opened Wrappers
  import opened Mfa

  type Id = nat

  /** How far a verification has come. From `Accepted` on it holds the row it read and the time of its
      check; the ones that ended keep their place, so ids are never used again. */
  datatype Step =
    | Got
    | Fetched(copy: Option<Challenge>)
    | Accepted(row: Challenge, at: nat)
    | Updated(row: Challenge, at: nat)
    | Dropped(row: Challenge, at: nat)
    | Granted(row: Challenge, at: nat)
    | Closed

  /** `live` is whether the marker was found. */
  datatype Attempt = Attempt(uuid: Uuid, code: string, live: bool, step: Step)

  /** `unmarked` holds the challenges whose row is written and whose marker is still to come, if ever. */
  datatype Shared = Shared(
    now: nat,
    challenges: map<Uuid, Challenge>,
    unmarked: set<Uuid>,
    markers: map<Uuid, nat>,
    attempts: map<Id, Attempt>)

  datatype Event =
    | Tick(ms: nat)
    | Create(uuid: Uuid, user: string, secret: string)
    | Mark(uuid: Uuid)
    | Get(id: Id, uuid: Uuid, code: string)
    | Read(id: Id)
    | Check(id: Id)
    | Update(id: Id)
    | Drop(id: Id)
    | Sign(id: Id)
    | Fail(id: Id)

  predicate Enabled(s: Shared, e: Event) {
    match e
    case Tick(_) => true
    case Create(uuid, _, _) => uuid !in s.challenges
    case Mark(uuid) => uuid in s.unmarked
    case Get(id, _, _) => id !in s.attempts
    case Read(id) => id in s.attempts && s.attempts[id].step.Got?
    case Check(id) => id in s.attempts && s.attempts[id].step.Fetched?
    case Update(id) => id in s.attempts && s.attempts[id].step.Accepted? && s.attempts[id].uuid in s.challenges
    case Drop(id) => id in s.attempts && s.attempts[id].step.Updated?
    case Sign(id) => id in s.attempts && s.attempts[id].step.Dropped?
    case Fail(id) => id in s.attempts && !s.attempts[id].step.Granted?
  }

  /** The checks between reading the row and updating it. */
  predicate Passes(totp: Totp, now: nat, a: Attempt)
    requires a.step.Fetched?
  {
    && a.live && a.step.copy.Some?
    && var c := a.step.copy.value;
       now <= c.expiresAt && c.verifiedAt.None? && totp(c.secret, a.code, now)
  }

  function Apply(totp: Totp, s: Shared, e: Event): Shared
    requires Enabled(s, e)
  {
    match e
    case Tick(ms) => s.(now := s.now + ms)
    case Create(uuid, user, secret) =>
      s.(challenges := s.challenges[uuid := Challenge(user, secret, s.now + CHALLENGE_MS, None)],
         unmarked := s.unmarked + {uuid})
    case Mark(uuid) =>
      s.(markers := s.markers[uuid := s.now + CHALLENGE_MS], unmarked := s.unmarked - {uuid})
    case Get(id, uuid, code) =>
      s.(attempts := s.attempts[id := Attempt(uuid, code, uuid in s.markers && s.now < s.markers[uuid], Got)])
    case Read(id) =>
      var uuid := s.attempts[id].uuid;
      To(s, id, Fetched(if uuid in s.challenges then Some(s.challenges[uuid]) else None))
    case Check(id) =>
      var a := s.attempts[id];
      To(s, id, if Passes(totp, s.now, a) then Accepted(a.step.copy.value, s.now) else Closed)
    case Update(id) =>
      var a := s.attempts[id];
      To(s, id, Updated(a.step.row, a.step.at)).(
        challenges := s.challenges[a.uuid := s.challenges[a.uuid].(verifiedAt := Some(a.step.at))])
    case Drop(id) =>
      var a := s.attempts[id];
      To(s, id, Dropped(a.step.row, a.step.at)).(markers := s.markers - {a.uuid})
    case Sign(id) => To(s, id, Granted(s.attempts[id].step.row, s.attempts[id].step.at))
    case Fail(id) => To(s, id, Closed)
  }

  function To(s: Shared, id: Id, step: Step): Shared
    requires id in s.attempts
  {
    s.(attempts := s.attempts[id := s.attempts[id].(step := step)])
  }

  predicate Runs(totp: Totp, s: Shared, es: seq<Event>, s': Shared)
    decreases |es|
  {
    if es == [] then s' == s
    else Enabled(s, es[0]) && Runs(totp, Apply(totp, s, es[0]), es[1..], s')
  }

  const EMPTY := Shared(0, map[], {}, map[], map[])

  /** The verifications of this challenge that returned a token. */
  function Tokens(s: Shared, uuid: Uuid): set<Id> {
    set id | id in s.attempts && s.attempts[id].uuid == uuid && s.attempts[id].step.Granted?
  }

  // ----- Invariant -----------------------------------------------------------------------------------

  ghost predicate Before(log: seq<Event>, a: Event, b: Event) {
    exists i, j :: 0 <= i < j < |log| && log[i] == a && log[j] == b
  }

  /** `q` read the row before `p` updated it, and updated it after `p`. */
  ghost predicate Crossed(log: seq<Event>, p: Id, q: Id) {
    Before(log, Read(q), Update(p)) && Before(log, Update(p), Update(q))
  }

  /** It holds a copy of the row that is not verified. */
  predicate HoldsOpen(a: Attempt) {
    a.step.Accepted? || (a.step.Fetched? && a.step.copy.Some? && a.step.copy.value.verifiedAt.None?)
  }

  predicate Wrote(a: Attempt) {
    a.step.Updated? || a.step.Dropped? || a.step.Granted?
  }

  /** What was accepted was right: an unexpired challenge with a live marker, and a code accepted then. */
  predicate Earned(totp: Totp, s: Shared, a: Attempt)
    requires a.step.Accepted? || Wrote(a)
  {
    && a.live && a.uuid in s.challenges
    && var c := s.challenges[a.uuid];
       c.user == a.step.row.user && a.step.at <= c.expiresAt && totp(c.secret, a.code, a.step.at)
  }

  predicate CopyOk(totp: Totp, s: Shared, a: Attempt) {
    && (a.step.Fetched? && a.step.copy.Some? ==>
          && a.uuid in s.challenges
          && s.challenges[a.uuid].(verifiedAt := a.step.copy.value.verifiedAt) == a.step.copy.value)
    && (a.step.Accepted? || Wrote(a) ==> Earned(totp, s, a))
    && (Wrote(a) ==> s.challenges[a.uuid].verifiedAt.Some?)
  }

  ghost predicate CopiesOk(totp: Totp, s: Shared) {
    forall id :: id in s.attempts ==> CopyOk(totp, s, s.attempts[id])
  }

  ghost predicate LogOk(log: seq<Event>, id: Id, a: Attempt) {
    (HoldsOpen(a) ==> Read(id) in log) && (Wrote(a) ==> Update(id) in log)
  }

  /** Whoever else wrote, it was after this one read. */
  ghost predicate PairOk(log: seq<Event>, p: Id, a: Attempt, q: Id, b: Attempt) {
    p != q && a.uuid == b.uuid && Wrote(a) ==>
      && (HoldsOpen(b) ==> Before(log, Read(q), Update(p)))
      && (Wrote(b) ==> Crossed(log, p, q) || Crossed(log, q, p))
  }

  ghost predicate Inv(totp: Totp, log: seq<Event>, s: Shared) {
    && CopiesOk(totp, s)
    && (forall id :: id in s.attempts ==> LogOk(log, id, s.attempts[id]))
    && (forall p, q :: p in s.attempts && q in s.attempts ==> PairOk(log, p, s.attempts[p], q, s.attempts[q]))
  }

  lemma CopiesKept(totp: Totp, s: Shared, e: Event)
    requires CopiesOk(totp, s) && Enabled(s, e)
    ensures CopiesOk(totp, Apply(totp, s, e))
  {
    var s' := Apply(totp, s, e);
    forall a | CopyOk(totp, s, a) ensures CopyOk(totp, s', a) {}
  }

  lemma BeforeGrows(log: seq<Event>, e: Event)
    ensures forall a, b :: Before(log, a, b) ==> Before(log + [e], a, b)
    ensures forall a :: a in log ==> a in log + [e] && Before(log + [e], a, e)
    ensures e in log + [e]
  {
    var now := log + [e];
    forall a, b | Before(log, a, b) ensures Before(now, a, b) {
      var i, j :| 0 <= i < j < |log| && log[i] == a && log[j] == b;
      assert now[i] == a && now[j] == b;
    }
    forall a | a in log ensures Before(now, a, e) {
      var i :| 0 <= i < |log| && log[i] == a;
      assert now[i] == a && now[|log|] == e;
    }
    assert now[|log|] == e;
  }

  lemma LogKept(totp: Totp, log: seq<Event>, s: Shared, e: Event)
    requires Inv(totp, log, s) && Enabled(s, e)
    ensures forall id :: id in Apply(totp, s, e).attempts ==> LogOk(log + [e], id, Apply(totp, s, e).attempts[id])
  {
    BeforeGrows(log, e);
    forall id, a | LogOk(log, id, a) ensures LogOk(log + [e], id, a) {}
  }

  lemma PairGrows(log: seq<Event>, e: Event, p: Id, a: Attempt, a': Attempt, q: Id, b: Attempt, b': Attempt)
    requires PairOk(log, p, a, q, b) && PairOk(log, q, b, p, a) && LogOk(log, p, a) && LogOk(log, q, b)
    requires a'.uuid == a.uuid && b'.uuid == b.uuid
    requires Wrote(a') ==> Wrote(a) || (e == Update(p) && HoldsOpen(a))
    requires Wrote(b') ==> Wrote(b) || (e == Update(q) && HoldsOpen(b))
    requires HoldsOpen(b') ==> HoldsOpen(b) || (e == Read(q) && (a.uuid == b.uuid ==> !Wrote(a)))
    ensures PairOk(log + [e], p, a', q, b')
  {
    BeforeGrows(log, e);
  }

  /** Only an update writes, and only a read of an unverified row gives an open copy. */
  lemma AttemptStep(totp: Totp, s: Shared, e: Event, id: Id)
    requires Enabled(s, e) && id in Apply(totp, s, e).attempts
    ensures var a' := Apply(totp, s, e).attempts[id];
            if id in s.attempts then
              var a := s.attempts[id];
              && a'.uuid == a.uuid
              && (Wrote(a') ==> Wrote(a) || (e == Update(id) && HoldsOpen(a)))
              && (HoldsOpen(a') && !HoldsOpen(a) ==>
                    e == Read(id) && a.uuid in s.challenges && s.challenges[a.uuid].verifiedAt.None?)
            else !Wrote(a') && !HoldsOpen(a')
  {}

  lemma PairKept(totp: Totp, log: seq<Event>, s: Shared, e: Event, p: Id, q: Id)
    requires Inv(totp, log, s) && Enabled(s, e)
    requires p in Apply(totp, s, e).attempts && q in Apply(totp, s, e).attempts
    ensures PairOk(log + [e], p, Apply(totp, s, e).attempts[p], q, Apply(totp, s, e).attempts[q])
  {
    AttemptStep(totp, s, e, p);
    AttemptStep(totp, s, e, q);
    if p in s.attempts && q in s.attempts {
      var a, b := s.attempts[p], s.attempts[q];
      assert PairOk(log, p, a, q, b) && PairOk(log, q, b, p, a);
      assert LogOk(log, p, a) && LogOk(log, q, b) && CopyOk(totp, s, a) && CopyOk(totp, s, b);
      PairGrows(log, e, p, a, Apply(totp, s, e).attempts[p], q, b, Apply(totp, s, e).attempts[q]);
    }
  }

  lemma {:induction false} RunKeepsInv(totp: Totp, log: seq<Event>, s: Shared, es: seq<Event>, s': Shared)
    requires Inv(totp, log, s) && Runs(totp, s, es, s')
    ensures Inv(totp, log + es, s')
    decreases |es|
  {
    if es == [] {
      assert log + es == log;
    } else {
      var next := Apply(totp, s, es[0]);
      CopiesKept(totp, s, es[0]);
      LogKept(totp, log, s, es[0]);
      forall p, q | p in next.attempts && q in next.attempts
        ensures PairOk(log + [es[0]], p, next.attempts[p], q, next.attempts[q]) { PairKept(totp, log, s, es[0], p, q); }
      RunKeepsInv(totp, log + [es[0]], next, es[1..], s');
      assert log + [es[0]] + es[1..] == log + es;
    }
  }

  // ----- What holds over every run -------------------------------------------------------------------

  /** However verifications overlap, a token goes to the challenge's user, for a code accepted by the
      challenge's expiry and after its marker was found. */
  lemma TokensAreEarned(totp: Totp, es: seq<Event>, s: Shared, uuid: Uuid, id: Id)
    requires Runs(totp, EMPTY, es, s) && id in Tokens(s, uuid)
    ensures Earned(totp, s, s.attempts[id]) && s.challenges[uuid].verifiedAt.Some?
  {
    RunKeepsInv(totp, [], EMPTY, es, s);
    assert [] + es == es && CopyOk(totp, s, s.attempts[id]);
  }

  lemma AtMostOneIff(ids: set<Id>)
    ensures |ids| <= 1 <==> forall p, q :: p in ids && q in ids ==> p == q
  {
    if |ids| > 1 {
      var p :| p in ids;
      assert |ids - {p}| == |ids| - 1;
      var q :| q in ids - {p};
    }
    forall p, q | p in ids && q in ids && |ids| <= 1 ensures p == q {
      assert |ids - {p}| == |ids| - 1;
    }
  }

  lemma TwoTokensCross(totp: Totp, es: seq<Event>, s: Shared, uuid: Uuid, p: Id, q: Id)
    requires Runs(totp, EMPTY, es, s) && p in Tokens(s, uuid) && q in Tokens(s, uuid) && p != q
    ensures Crossed(es, p, q) || Crossed(es, q, p)
  {
    RunKeepsInv(totp, [], EMPTY, es, s);
    assert [] + es == es && PairOk(es, p, s.attempts[p], q, s.attempts[q]);
  }

  /** A challenge earns one token at most exactly when none of the verifications that earned one read its
      row before another of them updated it and updated it after that. */
  lemma OneTokenIff(totp: Totp, es: seq<Event>, s: Shared, uuid: Uuid)
    requires Runs(totp, EMPTY, es, s)
    ensures |Tokens(s, uuid)| <= 1 <==>
            forall p, q :: p in Tokens(s, uuid) && q in Tokens(s, uuid) && p != q ==> !Crossed(es, p, q)
  {
    AtMostOneIff(Tokens(s, uuid));
    forall p, q | p in Tokens(s, uuid) && q in Tokens(s, uuid) && p != q
      ensures Crossed(es, p, q) || Crossed(es, q, p) { TwoTokensCross(totp, es, s, uuid, p, q); }
  }

  /** The verifications under way that can still earn a token although the row is verified. */
  function Holders(s: Shared, uuid: Uuid): set<Id> {
    set id | id in s.attempts && s.attempts[id].uuid == uuid && (HoldsOpen(s.attempts[id]) || Wrote(s.attempts[id]))
  }

  /** Once the row is verified, only those that had read it before can still return a token. */
  lemma {:induction false} ClosedToNewcomers(totp: Totp, s: Shared, es: seq<Event>, s': Shared, uuid: Uuid)
    requires Runs(totp, s, es, s') && uuid in s.challenges && s.challenges[uuid].verifiedAt.Some?
    ensures Tokens(s', uuid) <= Holders(s', uuid) <= Holders(s, uuid)
    decreases |es|
  {
    if es == [] {
    } else {
      ClosedToNewcomers(totp, Apply(totp, s, es[0]), es[1..], s', uuid);
    }
  }

  // ----- One verification that nobody interrupts --------------------------------------------------------

  /** The same stores for the system in which requests run one at a time. */
  function Serial(s: Shared): State {
    State(s.now, s.challenges, s.markers, [])
  }

  /** From its check on, a verification that answers `calls` of its calls. */
  function Rest(id: Id, calls: nat): seq<Event> {
    if calls == 0 then [Fail(id)]
    else if calls == 1 then [Update(id), Fail(id)]
    else if calls == 2 then [Update(id), Drop(id), Fail(id)]
    else [Update(id), Drop(id), Sign(id)]
  }

  lemma RestRuns(totp: Totp, s: Shared, id: Id, calls: nat) returns (s': Shared)
    requires id in s.attempts && s.attempts[id].step.Accepted? && s.attempts[id].uuid in s.challenges
    ensures Runs(totp, s, Rest(id, calls), s') && s'.now == s.now && id in s'.attempts
    ensures var a := s.attempts[id];
            && s'.challenges == (if calls == 0 then s.challenges else
                                   s.challenges[a.uuid := s.challenges[a.uuid].(verifiedAt := Some(a.step.at))])
            && s'.markers == (if calls <= 1 then s.markers else s.markers - {a.uuid})
            && s'.attempts[id].uuid == a.uuid && (s'.attempts[id].step.Granted? <==> calls > 2)
  {
    var es := Rest(id, calls);
    var s1 := Apply(totp, s, es[0]);
    if calls == 0 {
      s' := s1;
    } else {
      var s2 := Apply(totp, s1, es[1]);
      s' := if calls == 1 then s2 else Apply(totp, s2, es[2]);
      assert calls > 1 ==> Runs(totp, s2, es[2..], s');
      assert Runs(totp, s1, es[1..], s');
    }
    assert Runs(totp, s, es, s');
  }

  /** It is accepted exactly when the serial system says so. */
  lemma ChecksRun(totp: Totp, s: Shared, id: Id, uuid: Uuid, code: string) returns (s': Shared)
    requires id !in s.attempts
    ensures Runs(totp, s, [Get(id, uuid, code), Read(id), Check(id)], s')
    ensures s' == s.(attempts := s'.attempts) && id in s'.attempts && s'.attempts[id].uuid == uuid
    ensures s'.attempts[id].step == if Succeeds(totp, Serial(s), uuid, code) then Accepted(s.challenges[uuid], s.now)
                                    else Closed
  {
    var es := [Get(id, uuid, code), Read(id), Check(id)];
    var s1 := Apply(totp, s, es[0]);
    var s2 := Apply(totp, s1, es[1]);
    s' := Apply(totp, s2, es[2]);
    assert Runs(totp, s2, es[2..], s');
    assert Runs(totp, s1, es[1..], s');
  }

  lemma {:induction false} RunsConcat(totp: Totp, s: Shared, es: seq<Event>, s': Shared, fs: seq<Event>, s'': Shared)
    requires Runs(totp, s, es, s') && Runs(totp, s', fs, s'')
    ensures Runs(totp, s, es + fs, s'')
    decreases |es|
  {
    if es == [] {
      assert es + fs == fs;
    } else {
      RunsConcat(totp, Apply(totp, s, es[0]), es[1..], s', fs, s'');
      assert (es + fs)[1..] == es[1..] + fs;
    }
  }

  /** A verification that nobody interrupts changes the stores, and earns a token, exactly as the step of
      the serial system does. */
  lemma VerifyIsRun(totp: Totp, s: Shared, id: Id, uuid: Uuid, code: string, calls: nat)
    returns (es: seq<Event>, s': Shared)
    requires id !in s.attempts
    ensures Runs(totp, s, es, s') && id in s'.attempts && s'.attempts[id].uuid == uuid
    ensures var serial := Mfa.Apply(totp, Serial(s), Verify(uuid, code, calls));
            && Serial(s') == serial.(grants := [])
            && (id in Tokens(s', uuid) <==> serial.grants != [])
  {
    es := [Get(id, uuid, code), Read(id), Check(id)];
    s' := ChecksRun(totp, s, id, uuid, code);
    if Succeeds(totp, Serial(s), uuid, code) {
      var checked := s';
      s' := RestRuns(totp, checked, id, calls);
      RunsConcat(totp, s, es, checked, Rest(id, calls), s');
      es := es + Rest(id, calls);
    }
  }

  /** So is the making of a challenge. */
  lemma EvaluateIsRun(totp: Totp, s: Shared, uuid: Uuid, user: string, secret: string, risk: int, device: string,
                      known: set<string>)
    returns (es: seq<Event>, s': Shared)
    requires uuid !in s.challenges && (risk >= 60 || device !in known)
    ensures Runs(totp, s, es, s') && s'.attempts == s.attempts
    ensures Serial(s') == Mfa.Apply(totp, Serial(s), Evaluate(uuid, user, secret, risk, device, known))
  {
    es := [Create(uuid, user, secret), Mark(uuid)];
    var s1 := Apply(totp, s, es[0]);
    s' := Apply(totp, s1, es[1]);
    assert Runs(totp, s1, es[1..], s');
  }

  // ----- A run with two tokens -------------------------------------------------------------------------

  const ANY: Totp := (secret, code, at) => true

  const OPEN := Challenge("ann", "s", CHALLENGE_MS, None)
  const VERIFIED := Challenge("ann", "s", CHALLENGE_MS, Some(0))
  const MARKERS: map<Uuid, nat> := map["u" := CHALLENGE_MS]

  /** Two verifications of one challenge at these steps. */
  function Both(row: Challenge, markers: map<Uuid, nat>, one: Step, two: Step): Shared {
    Shared(0, map["u" := row], {}, markers, map[1 := Attempt("u", "1", true, one), 2 := Attempt("u", "1", true, two)])
  }

  const OPENED := Both(OPEN, MARKERS, Got, Got)
  const CROSSED := Both(VERIFIED, MARKERS, Updated(OPEN, 0), Updated(OPEN, 0))
  const SIGNED := Both(VERIFIED, map[], Granted(OPEN, 0), Granted(OPEN, 0))

  const OPENING := [Create("u", "ann", "s"), Mark("u"), Get(1, "u", "1"), Get(2, "u", "1")]
  const CROSSING := [Read(1), Read(2), Check(1), Check(2), Update(1), Update(2)]
  const ENDING := [Drop(1), Drop(2), Sign(1), Sign(2)]

  lemma Opens()
    ensures Runs(ANY, EMPTY, OPENING, OPENED)
  {
    var s1 := Apply(ANY, EMPTY, OPENING[0]);
    var s2 := Apply(ANY, s1, OPENING[1]);
    assert s2 == Shared(0, map["u" := OPEN], {}, MARKERS, map[]);
    var s3 := Apply(ANY, s2, OPENING[2]);
    assert Apply(ANY, s3, OPENING[3]) == OPENED;
    assert Runs(ANY, s2, OPENING[2..], OPENED);
    assert Runs(ANY, s1, OPENING[1..], OPENED);
  }

  lemma Crosses()
    ensures Runs(ANY, OPENED, CROSSING, CROSSED)
  {
    var read, accepted, updated := Fetched(Some(OPEN)), Accepted(OPEN, 0), Updated(OPEN, 0);
    assert Apply(ANY, Both(VERIFIED, MARKERS, updated, accepted), Update(2)) == CROSSED;
    assert Apply(ANY, Both(OPEN, MARKERS, accepted, accepted), Update(1)) == Both(VERIFIED, MARKERS, updated, accepted);
    assert Runs(ANY, Both(OPEN, MARKERS, accepted, accepted), CROSSING[4..], CROSSED);
    assert Apply(ANY, Both(OPEN, MARKERS, accepted, read), Check(2)) == Both(OPEN, MARKERS, accepted, accepted);
    assert Apply(ANY, Both(OPEN, MARKERS, read, read), Check(1)) == Both(OPEN, MARKERS, accepted, read);
    assert Runs(ANY, Both(OPEN, MARKERS, read, read), CROSSING[2..], CROSSED);
    assert Apply(ANY, Both(OPEN, MARKERS, read, Got), Read(2)) == Both(OPEN, MARKERS, read, read);
    assert Apply(ANY, OPENED, Read(1)) == Both(OPEN, MARKERS, read, Got);
    assert Runs(ANY, Both(OPEN, MARKERS, read, Got), CROSSING[1..], CROSSED);
  }

  lemma Ends()
    ensures Runs(ANY, CROSSED, ENDING, SIGNED)
  {
    var updated, dropped, signed := Updated(OPEN, 0), Dropped(OPEN, 0), Granted(OPEN, 0);
    assert Apply(ANY, Both(VERIFIED, map[], signed, dropped), Sign(2)) == SIGNED;
    assert Apply(ANY, Both(VERIFIED, map[], dropped, dropped), Sign(1)) == Both(VERIFIED, map[], signed, dropped);
    assert Runs(ANY, Both(VERIFIED, map[], dropped, dropped), ENDING[2..], SIGNED);
    assert MARKERS - {"u"} == map[] && map[] - {"u"} == MARKERS - {"u"};
    assert Apply(ANY, Both(VERIFIED, map[], dropped, updated), Drop(2)) == Both(VERIFIED, map[], dropped, dropped);
    assert Apply(ANY, CROSSED, Drop(1)) == Both(VERIFIED, map[], dropped, updated);
    assert Runs(ANY, Both(VERIFIED, map[], dropped, updated), ENDING[1..], SIGNED);
  }

  lemma OpensAndCrosses()
    ensures Runs(ANY, EMPTY, OPENING + CROSSING, CROSSED)
  {
    Opens();
    Crosses();
    RunsConcat(ANY, EMPTY, OPENING, OPENED, CROSSING, CROSSED);
  }

  lemma BothSigned()
    ensures Tokens(SIGNED, "u") == {1, 2}
  {}

  /** Both verifications of one challenge, with one code, read its row before either updates it: both
      return a token. */
  lemma TwoTokensRun()
    ensures Runs(ANY, EMPTY, OPENING + CROSSING + ENDING, SIGNED) && Tokens(SIGNED, "u") == {1, 2}
  {
    OpensAndCrosses();
    Ends();
    RunsConcat(ANY, EMPTY, OPENING + CROSSING, CROSSED, ENDING, SIGNED);
    BothSigned();
  }
}

/** Signing keys that rotate while other processes cache them: `rotateKeys`, `fetchKey`,
    `fetchActiveKey`, `issueJwt` and `validateJwt` of any number of processes, interleaved at
    their awaits. */
module Keys {
  import opened Tokens
  import opened Wrappers

  /** Rows of `jwt_keys` are numbered in the order they were created; rows are never deleted. */
  type Kid = nat
  type Secret = string
  type Id = nat

  /** `retiredAt` is history: when the row lost its `active` flag. */
  datatype KeyRow = KeyRow(secret: Secret, active: bool, retiredAt: Option<nat>)

  const CACHE_MS: nat := 5 * 60_000

  datatype Cached = Cached(secret: Secret, expires: nat)

  /** The cached active key. `readAt` and `storedAt` are history: when its row was read, and when,
      after decryption, it was stored. */
  datatype ActiveKey = ActiveKey(kid: Kid, secret: Secret, expires: nat, readAt: nat, storedAt: nat)

  /** The module-level variables of one process. */
  datatype Caches = Caches(keys: map<Kid, Cached>, active: Option<ActiveKey>)

  /** A compact JWT: its `kid` header (section 4.1.4 of RFC 7515), claims, and the secret its HS256
      signature was made with. A signature verifies only under that secret. */
  datatype Jwt = Jwt(kid: Option<Kid>, payload: Payload, token: Token, signedWith: Secret)

  // ----- What one process does with its caches --------------------------------------------------

  /** What `fetchKey` returns: a fresh cache entry, else the row. */
  function KeyFor(rows: seq<KeyRow>, c: Caches, kid: Kid, now: nat): Option<Secret> {
    if kid in c.keys && now < c.keys[kid].expires then Some(c.keys[kid].secret)
    else if kid < |rows| then Some(rows[kid].secret)
    else None
  }

  function StoreKey(c: Caches, kid: Kid, secret: Secret, now: nat): Caches {
    c.(keys := c.keys[kid := Cached(secret, now + CACHE_MS)])
  }

  function StoreActive(c: Caches, kid: Kid, secret: Secret, readAt: nat, now: nat): Caches {
    StoreKey(c, kid, secret, now).(active := Some(ActiveKey(kid, secret, now + CACHE_MS, readAt, now)))
  }

  function AfterRotation(c: Caches, kid: Kid, secret: Secret, now: nat): Caches {
    StoreKey(c, kid, secret, now).(active := None)
  }

  datatype Validation = Valid(payload: Payload) | NotValid(error: string)

  /** `validateJwt` with the secret that `fetchKey` returned. */
  function Validate(key: Option<Secret>, jwt: Jwt, blacklist: Blacklist, verifiedAt: nat, lookedUpAt: nat): Validation {
    if jwt.kid.None? then NotValid("kid_missing")
    else if key.None? || key.value != jwt.signedWith || Expired(jwt.token, verifiedAt) then NotValid("invalid")
    else if jwt.payload.jti == "" then NotValid("jti_missing")
    else if Listed(blacklist, jwt.payload.jti, lookedUpAt) then NotValid("revoked")
    else Valid(jwt.payload)
  }

  // ----- Rows --------------------------------------------------------------------------------

  function Actives(rows: seq<KeyRow>): set<Kid> {
    set k | 0 <= k < |rows| && rows[k].active
  }

  lemma NoActives(rows: seq<KeyRow>)
    ensures Actives(rows) == {} <==> forall k :: 0 <= k < |rows| ==> !rows[k].active
  {
    forall k | 0 <= k < |rows| && rows[k].active ensures k in Actives(rows) {}
  }

  function Retire(rows: seq<KeyRow>, kid: Kid, now: nat): seq<KeyRow> {
    if kid < |rows| && rows[kid].active
    then rows[kid := rows[kid].(active := false, retiredAt := Some(now))]
    else rows
  }

  /** The key was active at some moment no earlier than `since`. */
  predicate ActiveSince(rows: seq<KeyRow>, kid: Kid, since: nat) {
    kid < |rows| && (rows[kid].active || (rows[kid].retiredAt.Some? && since <= rows[kid].retiredAt.value))
  }

  // ----- The system ----------------------------------------------------------------------------

  /** A rotation under way: it has chosen the key to retire, created the new one, or retired the old. */
  datatype Rotation =
    | Chosen(proc: Id, previous: Option<Kid>)
    | Created(proc: Id, previous: Option<Kid>, new_: Kid)
    | Retired(proc: Id, new_: Kid)

  /** A fetch that has read its row and awaits decryption. */
  datatype Fetch = Fetch(proc: Id, kid: Kid, secret: Secret, wantActive: bool, readAt: nat)

  datatype System = System(
    now: nat,
    rows: seq<KeyRow>,
    rotations: map<Id, Rotation>,
    fetches: map<Id, Fetch>,
    procs: map<Id, Caches>,
    issued: seq<Jwt>)

  datatype Event =
    | Tick(ms: nat)
    | Boot(proc: Id)
    | RotateFind(id: Id, proc: Id, previous: Option<Kid>)
    | RotateCreate(id: Id, secret: Secret)
    | RotateRetire(id: Id)
    | RotateCache(id: Id)
    | RotateCrash(id: Id)
    | FetchRead(id: Id, proc: Id, kid: Kid, wantActive: bool)
    | FetchStore(id: Id)
    | FetchFail(id: Id)
    | Issue(proc: Id, payload: Payload, lifetime: nat)

  predicate Enabled(s: System, e: Event) {
    match e
    case Tick(_) => true
    case Boot(_) => true
    case RotateFind(id, proc, previous) =>
      // findFirst returns some active row, any of them, and null only when there is none.
      && id !in s.rotations && proc in s.procs
      && (if previous.Some? then previous.value in Actives(s.rows) else Actives(s.rows) == {})
    case RotateCreate(id, _) => id in s.rotations && s.rotations[id].Chosen?
    case RotateRetire(id) => id in s.rotations && s.rotations[id].Created?
    case RotateCache(id) => id in s.rotations && s.rotations[id].Retired? && s.rotations[id].proc in s.procs
    case RotateCrash(id) => id in s.rotations
    case FetchRead(id, proc, kid, wantActive) =>
      && id !in s.fetches && proc in s.procs && kid < |s.rows|
      && (wantActive ==> kid in Actives(s.rows))
    case FetchStore(id) => id in s.fetches && s.fetches[id].proc in s.procs
    case FetchFail(id) => id in s.fetches
    case Issue(proc, _, _) =>
      proc in s.procs && s.procs[proc].active.Some? && s.now < s.procs[proc].active.value.expires
  }

  function Apply(s: System, e: Event): System
    requires Enabled(s, e)
  {
    match e
    case Tick(ms) => s.(now := s.now + ms)
    case Boot(proc) => s.(procs := s.procs[proc := Caches(map[], None)])
    case RotateFind(id, proc, previous) => s.(rotations := s.rotations[id := Chosen(proc, previous)])
    case RotateCreate(id, secret) =>
      var r := s.rotations[id];
      s.(rows := s.rows + [KeyRow(secret, true, None)],
         rotations := s.rotations[id := Created(r.proc, r.previous, |s.rows|)])
    case RotateRetire(id) =>
      var r := s.rotations[id];
      s.(rows := if r.previous.Some? then Retire(s.rows, r.previous.value, s.now) else s.rows,
         rotations := s.rotations[id := Retired(r.proc, r.new_)])
    case RotateCache(id) =>
      var r := s.rotations[id];
      if r.new_ < |s.rows| then
        s.(procs := s.procs[r.proc := AfterRotation(s.procs[r.proc], r.new_, s.rows[r.new_].secret, s.now)],
           rotations := s.rotations - {id})
      else s
    case RotateCrash(id) => s.(rotations := s.rotations - {id})
    case FetchRead(id, proc, kid, wantActive) =>
      s.(fetches := s.fetches[id := Fetch(proc, kid, s.rows[kid].secret, wantActive, s.now)])
    case FetchStore(id) =>
      var f := s.fetches[id];
      var c := s.procs[f.proc];
      s.(procs := s.procs[f.proc := if f.wantActive then StoreActive(c, f.kid, f.secret, f.readAt, s.now)
                                    else StoreKey(c, f.kid, f.secret, s.now)],
         fetches := s.fetches - {id})
    case FetchFail(id) => s.(fetches := s.fetches - {id})
    case Issue(proc, payload, lifetime) =>
      var a := s.procs[proc].active.value;
      s.(issued := s.issued + [Jwt(Some(a.kid), payload, Token(s.now, lifetime), a.secret)])
  }

  predicate Runs(s: System, es: seq<Event>, s': System)
    decreases |es|
  {
    if es == [] then s' == s
    else Enabled(s, es[0]) && Runs(Apply(s, es[0]), es[1..], s')
  }

  /** Some key is active; the rows are numbered so that such a key comes last. */
  ghost predicate Initial(s: System) {
    && s.rows != [] && s.rows[|s.rows| - 1].active
    && (forall k :: 0 <= k < |s.rows| ==> s.rows[k].active || s.rows[k].retiredAt.Some?)
    && s.rotations == map[] && s.fetches == map[] && s.procs == map[] && s.issued == []
  }

  // ----- Invariant -----------------------------------------------------------------------------

  /** The newest key is active: a key is only retired by a rotation that already created a newer one. */
  ghost predicate NewestActive(s: System) {
    && s.rows != [] && s.rows[|s.rows| - 1].active
    && (forall id :: id in s.rotations ==> RotationOk(s.rows, s.rotations[id]))
  }

  predicate RotationOk(rows: seq<KeyRow>, r: Rotation) {
    match r
    case Chosen(_, previous) => previous.Some? ==> previous.value < |rows|
    case Created(_, previous, new_) => new_ < |rows| && (previous.Some? ==> previous.value < new_)
    case Retired(_, new_) => new_ < |rows|
  }

  predicate SecretOf(rows: seq<KeyRow>, kid: Kid, secret: Secret) {
    kid < |rows| && rows[kid].secret == secret
  }

  /** Every cached secret is the row's, and the cached active key was active when it was read. */
  ghost predicate CachesOk(rows: seq<KeyRow>, now: nat, c: Caches) {
    && (forall kid :: kid in c.keys ==> SecretOf(rows, kid, c.keys[kid].secret))
    && (c.active.Some? ==> ActiveOk(rows, now, c.active.value))
  }

  predicate ActiveOk(rows: seq<KeyRow>, now: nat, a: ActiveKey) {
    && SecretOf(rows, a.kid, a.secret) && ActiveSince(rows, a.kid, a.readAt)
    && a.readAt <= a.storedAt <= now && a.expires == a.storedAt + CACHE_MS
  }

  ghost predicate Coherent(s: System) {
    && (forall p :: p in s.procs ==> CachesOk(s.rows, s.now, s.procs[p]))
    && (forall id :: id in s.fetches ==> FetchOk(s, s.fetches[id]))
    && (forall i :: 0 <= i < |s.issued| ==> JwtOk(s.rows, s.issued[i]))
  }

  predicate FetchOk(s: System, f: Fetch) {
    && SecretOf(s.rows, f.kid, f.secret) && f.readAt <= s.now
    && (f.wantActive ==> ActiveSince(s.rows, f.kid, f.readAt))
  }

  predicate JwtOk(rows: seq<KeyRow>, jwt: Jwt) {
    jwt.kid.Some? && SecretOf(rows, jwt.kid.value, jwt.signedWith)
  }

  ghost predicate Inv(s: System) {
    NewestActive(s) && Coherent(s)
  }

  // ----- Every step keeps the invariant ----------------------------------------------------------

  lemma NewestActiveKept(s: System, e: Event)
    requires NewestActive(s) && Enabled(s, e)
    ensures NewestActive(Apply(s, e))
  {}

  /** Rows keep their secrets, and a key active since some moment in the past stays so. */
  lemma RowsKept(s: System, e: Event)
    requires NewestActive(s) && Enabled(s, e)
    ensures forall kid, secret :: SecretOf(s.rows, kid, secret) ==> SecretOf(Apply(s, e).rows, kid, secret)
    ensures forall kid, since: nat :: since <= s.now && ActiveSince(s.rows, kid, since) ==>
              ActiveSince(Apply(s, e).rows, kid, since)
  {}

  lemma CoherentKept(s: System, e: Event)
    requires Inv(s) && Enabled(s, e)
    ensures Coherent(Apply(s, e))
  {
    var s' := Apply(s, e);
    RowsKept(s, e);
    forall c | CachesOk(s.rows, s.now, c) ensures CachesOk(s'.rows, s'.now, c) {}
    forall p | p in s'.procs ensures CachesOk(s'.rows, s'.now, s'.procs[p]) {
      if p in s.procs {
        assert CachesOk(s'.rows, s'.now, s.procs[p]);
      }
    }
  }

  lemma {:induction false} RunKeepsInv(s: System, es: seq<Event>, s': System)
    requires Inv(s) && Runs(s, es, s')
    ensures Inv(s')
    decreases |es|
  {
    if es == [] {
    } else {
      NewestActiveKept(s, es[0]);
      CoherentKept(s, es[0]);
      RunKeepsInv(Apply(s, es[0]), es[1..], s');
    }
  }

  // ----- What holds over every run ---------------------------------------------------------------

  /** With any number of rotations interleaved or abandoned at any step, some key is always active. */
  lemma SomeKeyIsActive(s0: System, es: seq<Event>, s: System)
    requires Initial(s0) && Runs(s0, es, s)
    ensures Actives(s.rows) != {}
  {
    RunKeepsInv(s0, es, s);
    assert |s.rows| - 1 in Actives(s.rows);
  }

  /** Issue then validate is a round trip: a token issued by any process is valid at any other, with
      the payload it was issued with, exactly until it expires or is blacklisted, whatever was rotated
      or cached in between. */
  lemma RoundTrip(s0: System, es: seq<Event>, s: System, i: nat, proc: Id, blacklist: Blacklist, verifiedAt: nat,
                  lookedUpAt: nat)
    requires Initial(s0) && Runs(s0, es, s)
    requires i < |s.issued| && proc in s.procs && s.issued[i].payload.jti != ""
    ensures var jwt := s.issued[i];
            && jwt.kid.Some?
            && var verdict := Validate(KeyFor(s.rows, s.procs[proc], jwt.kid.value, verifiedAt), jwt, blacklist,
                                       verifiedAt, lookedUpAt);
               && (verdict.Valid? ==> verdict.payload == jwt.payload)
               && (verdict.Valid? <==>
                     verifiedAt < Exp(jwt.token) * 1000 && !Listed(blacklist, jwt.payload.jti, lookedUpAt))
               && (verdict.Valid? <==> Judge(jwt.token, jwt.payload.jti, blacklist, verifiedAt, lookedUpAt) == Accepted)
  {
    RunKeepsInv(s0, es, s);
    var jwt := s.issued[i];
    assert JwtOk(s.rows, jwt) && CachesOk(s.rows, s.now, s.procs[proc]);
    ExpiredIff(jwt.token, verifiedAt);
  }

  /** Whoever made it, and whatever is cached: a token passes at any process exactly when its `kid` is a row
      whose secret signed it, it has not expired, and it has an id that is not blacklisted. */
  lemma AcceptedIff(s0: System, es: seq<Event>, s: System, proc: Id, jwt: Jwt, blacklist: Blacklist, verifiedAt: nat,
                    lookedUpAt: nat)
    requires Initial(s0) && Runs(s0, es, s) && proc in s.procs && jwt.kid.Some?
    ensures var (k, jti) := (jwt.kid.value, jwt.payload.jti);
            var key := KeyFor(s.rows, s.procs[proc], k, verifiedAt);
            var verdict := Validate(key, jwt, blacklist, verifiedAt, lookedUpAt);
            && (verdict.Valid? <==>
                  && k < |s.rows| && s.rows[k].secret == jwt.signedWith
                  && verifiedAt < (jwt.token.issuedAt / 1000 + jwt.token.lifetime) * 1000
                  && jti != "" && !(jti in blacklist && lookedUpAt < blacklist[jti]))
            && (verdict.Valid? ==> verdict.payload == jwt.payload)
  {
    CachesAreInvisible(s0, es, s, proc, jwt.kid.value, verifiedAt);
    ExpiredIff(jwt.token, verifiedAt);
  }

  /** The caches are invisible: validating any JWT, whoever made it, gives what it would give with
      the key table alone. */
  lemma CachesAreInvisible(s0: System, es: seq<Event>, s: System, proc: Id, kid: Kid, now: nat)
    requires Initial(s0) && Runs(s0, es, s) && proc in s.procs
    ensures KeyFor(s.rows, s.procs[proc], kid, now) == (if kid < |s.rows| then Some(s.rows[kid].secret) else None)
  {
    RunKeepsInv(s0, es, s);
    assert CachesOk(s.rows, s.now, s.procs[proc]);
  }

  /** Signing uses a key that was still active when it was last fetched, and that fetch was stored
      less than five minutes ago. */
  lemma SigningKeyIsRecent(s0: System, es: seq<Event>, s: System, proc: Id)
    requires Initial(s0) && Runs(s0, es, s)
    requires proc in s.procs && s.procs[proc].active.Some? && s.now < s.procs[proc].active.value.expires
    ensures var a := s.procs[proc].active.value;
            ActiveSince(s.rows, a.kid, a.readAt) && a.readAt <= a.storedAt && s.now < a.storedAt + 300_000
  {
    RunKeepsInv(s0, es, s);
    assert CachesOk(s.rows, s.now, s.procs[proc]);
  }

  // ----- What one process does, as runs ------------------------------------------------------------

  ghost predicate Reaches(s: System, s': System) {
    exists es :: Runs(s, es, s')
  }

  lemma ReachesStep(s: System, e: Event, s': System)
    requires Enabled(s, e) && Reaches(Apply(s, e), s')
    ensures Reaches(s, s')
  {
    var es :| Runs(Apply(s, e), es, s');
    assert ([e] + es)[1..] == es;
    assert Runs(s, [e] + es, s');
  }

  lemma ReachesSelf(s: System)
    ensures Reaches(s, s)
  {
    assert Runs(s, [], s);
  }

  lemma ReachesTransitive(s: System, s': System, s'': System)
    requires Reaches(s, s') && Reaches(s', s'')
    ensures Reaches(s, s'')
  {
    var es :| Runs(s, es, s');
    var fs :| Runs(s', fs, s'');
    RunsConcat(s, es, s', fs, s'');
  }

  lemma {:induction false} RunsConcat(s: System, es: seq<Event>, s': System, fs: seq<Event>, s'': System)
    requires Runs(s, es, s') && Runs(s', fs, s'')
    ensures Runs(s, es + fs, s'')
    decreases |es|
  {
    if es == [] {
      assert es + fs == fs;
    } else {
      RunsConcat(Apply(s, es[0]), es[1..], s', fs, s'');
      assert (es + fs)[1..] == es[1..] + fs;
    }
  }

  lemma LastStep(s: System, e: Event)
    requires Enabled(s, e)
    ensures Reaches(s, Apply(s, e))
  {
    assert Runs(Apply(s, e), [], Apply(s, e));
    ReachesStep(s, e, Apply(s, e));
  }

  /** A fetch of a key that misses the cache, as a run of this system. */
  lemma FetchIsRun(s: System, id: Id, proc: Id, kid: Kid)
    requires id !in s.fetches && proc in s.procs && kid < |s.rows|
    ensures Reaches(s, s.(procs := s.procs[proc := StoreKey(s.procs[proc], kid, s.rows[kid].secret, s.now)]))
  {
    var mid := Apply(s, FetchRead(id, proc, kid, false));
    assert mid.fetches - {id} == s.fetches;
    LastStep(mid, FetchStore(id));
    ReachesStep(s, FetchRead(id, proc, kid, false), Apply(mid, FetchStore(id)));
  }

  lemma FetchActiveIsRun(s: System, id: Id, proc: Id, kid: Kid)
    requires id !in s.fetches && proc in s.procs && kid in Actives(s.rows)
    ensures Reaches(s, s.(procs := s.procs[proc := StoreActive(s.procs[proc], kid, s.rows[kid].secret, s.now, s.now)]))
  {
    var mid := Apply(s, FetchRead(id, proc, kid, true));
    assert mid.fetches - {id} == s.fetches;
    LastStep(mid, FetchStore(id));
    ReachesStep(s, FetchRead(id, proc, kid, true), Apply(mid, FetchStore(id)));
  }

  /** The two tokens of one issue, as a run of this system. */
  lemma IssueIsRun(s: System, proc: Id, access: Payload, accessLife: nat, refresh: Payload, refreshLife: nat)
    requires proc in s.procs && s.procs[proc].active.Some? && s.now < s.procs[proc].active.value.expires
    ensures var a := s.procs[proc].active.value;
            Reaches(s, s.(issued := s.issued + [Jwt(Some(a.kid), access, Token(s.now, accessLife), a.secret),
                                                Jwt(Some(a.kid), refresh, Token(s.now, refreshLife), a.secret)]))
  {
    var a, mid := s.procs[proc].active.value, Apply(s, Issue(proc, access, accessLife));
    LastStep(mid, Issue(proc, refresh, refreshLife));
    ReachesStep(s, Issue(proc, access, accessLife), Apply(mid, Issue(proc, refresh, refreshLife)));
    var both := [Jwt(Some(a.kid), access, Token(s.now, accessLife), a.secret),
                 Jwt(Some(a.kid), refresh, Token(s.now, refreshLife), a.secret)];
    assert s.issued + both == s.issued + [both[0]] + [both[1]];
  }

  /** A rotation that fails at its third statement has created its key. */
  lemma RotationCutRun(s: System, id: Id, proc: Id, previous: Option<Kid>, secret: Secret)
    requires Enabled(s, RotateFind(id, proc, previous))
    ensures Reaches(s, s.(rows := s.rows + [KeyRow(secret, true, None)]))
  {
    var rows := s.rows + [KeyRow(secret, true, None)];
    var chosen := s.(rotations := s.rotations[id := Chosen(proc, previous)]);
    var created := s.(rows := rows, rotations := s.rotations[id := Created(proc, previous, |s.rows|)]);
    assert Apply(chosen, RotateCreate(id, secret)).rotations == created.rotations;
    assert created.rotations - {id} == s.rotations;
    LastStep(created, RotateCrash(id));
    ReachesStep(chosen, RotateCreate(id, secret), s.(rows := rows));
    ReachesStep(s, RotateFind(id, proc, previous), s.(rows := rows));
  }

  /** A whole rotation by one process, as a run of this system. */
  lemma RotationIsRun(s: System, id: Id, proc: Id, previous: Option<Kid>, secret: Secret)
    requires Enabled(s, RotateFind(id, proc, previous))
    ensures Reaches(s, s.(rows := Rotate(s.rows, previous, secret, s.now),
                          procs := s.procs[proc := AfterRotation(s.procs[proc], |s.rows|, secret, s.now)]))
  {
    var chosen := s.(rotations := s.rotations[id := Chosen(proc, previous)]);
    var rows := s.rows + [KeyRow(secret, true, None)];
    var created := s.(rows := rows, rotations := s.rotations[id := Created(proc, previous, |s.rows|)]);
    var retired := s.(rows := Rotate(s.rows, previous, secret, s.now),
                      rotations := s.rotations[id := Retired(proc, |s.rows|)]);
    assert Apply(chosen, RotateCreate(id, secret)).rotations == created.rotations;
    assert Apply(created, RotateRetire(id)).rotations == retired.rotations;
    assert retired.rotations - {id} == s.rotations;
    LastStep(retired, RotateCache(id));
    ReachesStep(created, RotateRetire(id), Apply(retired, RotateCache(id)));
    ReachesStep(chosen, RotateCreate(id, secret), Apply(retired, RotateCache(id)));
    ReachesStep(s, RotateFind(id, proc, previous), Apply(retired, RotateCache(id)));
  }

  /** How many remote calls a rotation makes before it caches its key: find, create, and a retirement if
      it found a key. */
  function RotationCalls(previous: Option<Kid>): nat {
    if previous.Some? then 3 else 2
  }

  /** The rows after a rotation of which the first `calls` calls answer. */
  function RowsAfter(rows: seq<KeyRow>, previous: Option<Kid>, secret: Secret, now: nat, calls: nat): seq<KeyRow> {
    if RotationCalls(previous) <= calls then Rotate(rows, previous, secret, now)
    else if calls == 2 then rows + [KeyRow(secret, true, None)]
    else rows
  }

  function Rotated(s: System, proc: Id, previous: Option<Kid>, secret: Secret, calls: nat): System
    requires proc in s.procs
  {
    s.(rows := RowsAfter(s.rows, previous, secret, s.now, calls),
       procs := if RotationCalls(previous) <= calls
                then s.procs[proc := AfterRotation(s.procs[proc], |s.rows|, secret, s.now)]
                else s.procs)
  }

  /** Wherever it stops, a rotation is a run of this system, and its process's caches stay right. */
  lemma RotatedIsRun(s: System, id: Id, proc: Id, previous: Option<Kid>, secret: Secret, calls: nat)
    requires Enabled(s, RotateFind(id, proc, previous)) && CachesOk(s.rows, s.now, s.procs[proc])
    ensures var s' := Rotated(s, proc, previous, secret, calls);
            Reaches(s, s') && CachesOk(s'.rows, s'.now, s'.procs[proc])
  {
    var s' := Rotated(s, proc, previous, secret, calls);
    ReachesSelf(s);
    RotationIsRun(s, id, proc, previous, secret);
    if calls == 2 && previous.Some? {
      RotationCutRun(s, id, proc, previous, secret);
    }
    assert forall kid, known :: SecretOf(s.rows, kid, known) ==> SecretOf(s'.rows, kid, known);
  }

  // ----- Rotations that do not overlap, and two that do --------------------------------------------

  /** One whole rotation with nothing in between. */
  function Rotate(rows: seq<KeyRow>, previous: Option<Kid>, secret: Secret, now: nat): seq<KeyRow> {
    var created := rows + [KeyRow(secret, true, None)];
    if previous.Some? then Retire(created, previous.value, now) else created
  }

  lemma RowsAfterAt(rows: seq<KeyRow>, previous: Option<Kid>, secret: Secret, now: nat, calls: nat)
    requires previous.Some? ==> previous.value in Actives(rows)
    ensures var rows' := RowsAfter(rows, previous, secret, now, calls);
            && |rows'| == |rows| + (if calls < 2 then 0 else 1)
            && (2 <= calls ==> rows'[|rows|] == KeyRow(secret, true, None))
            && forall k :: 0 <= k < |rows| ==>
                 rows'[k] == if previous == Some(k) && 3 <= calls then KeyRow(rows[k].secret, false, Some(now))
                             else rows[k]
  {}

  lemma CreateActivates(rows: seq<KeyRow>, secret: Secret)
    ensures Actives(rows + [KeyRow(secret, true, None)]) == Actives(rows) + {|rows|}
  {}

  lemma RetireDeactivates(rows: seq<KeyRow>, kid: Kid, now: nat)
    ensures Actives(Retire(rows, kid, now)) == Actives(rows) - {kid}
  {}

  /** A rotation swaps the key it found for the new one, so one active key stays one. */
  lemma RotateSwaps(rows: seq<KeyRow>, previous: Kid, secret: Secret, now: nat)
    requires previous in Actives(rows)
    ensures Actives(Rotate(rows, Some(previous), secret, now)) == Actives(rows) - {previous} + {|rows|}
    ensures |Actives(Rotate(rows, Some(previous), secret, now))| == |Actives(rows)|
  {
    CreateActivates(rows, secret);
    RetireDeactivates(rows + [KeyRow(secret, true, None)], previous, now);
    assert Actives(rows) + {|rows|} - {previous} == Actives(rows) - {previous} + {|rows|};
  }

  // ----- How many keys are active, over any run --------------------------------------------------------

  function RetiredBy(s: System, e: Event): set<Kid>
    requires Enabled(s, e)
  {
    if e.RotateRetire? && s.rotations[e.id].previous.Some? then {s.rotations[e.id].previous.value} else {}
  }

  /** The keys that rotations set inactive in this run. */
  function RetiredIn(s: System, es: seq<Event>, s': System): set<Kid>
    requires Runs(s, es, s')
    decreases |es|
  {
    if es == [] then {} else RetiredBy(s, es[0]) + RetiredIn(Apply(s, es[0]), es[1..], s')
  }

  /** How many keys rotations create in this run. */
  function Creations(es: seq<Event>): nat {
    if es == [] then 0 else (if es[0].RotateCreate? then 1 else 0) + Creations(es[1..])
  }

  predicate Between(lo: nat, k: Kid, hi: nat) {
    lo <= k < hi
  }

  function Interval(lo: nat, hi: nat): set<Kid> {
    set k: Kid | 0 <= k < hi && Between(lo, k, hi)
  }

  lemma {:induction false} IntervalSize(lo: nat, hi: nat)
    requires lo <= hi
    ensures |Interval(lo, hi)| == hi - lo
    decreases hi
  {
    if lo == hi {
      assert Interval(lo, hi) == {};
    } else {
      IntervalSize(lo, hi - 1);
      assert Interval(lo, hi) == Interval(lo, hi - 1) + {hi - 1};
    }
  }

  lemma ActivesStep(s: System, e: Event)
    requires NewestActive(s) && Enabled(s, e)
    ensures var s' := Apply(s, e);
            && |s'.rows| == |s.rows| + (if e.RotateCreate? then 1 else 0)
            && Actives(s'.rows) == Actives(s.rows) + Interval(|s.rows|, |s'.rows|) - RetiredBy(s, e)
            && (forall k :: k in RetiredBy(s, e) ==> k < |s.rows|)
  {
    var s' := Apply(s, e);
    if e.RotateCreate? {
      CreateActivates(s.rows, e.secret);
      assert Interval(|s.rows|, |s'.rows|) == {|s.rows|};
    } else {
      assert Interval(|s.rows|, |s'.rows|) == {};
      if e.RotateRetire? && s.rotations[e.id].previous.Some? {
        RetireDeactivates(s.rows, s.rotations[e.id].previous.value, s.now);
      }
    }
  }

  lemma Compose(start: set<Kid>, lo: nat, mid: nat, hi: nat, first: set<Kid>, later: set<Kid>)
    requires lo <= mid <= hi && forall k :: k in first ==> k < lo
    ensures start + Interval(lo, mid) - first + Interval(mid, hi) - later == start + Interval(lo, hi) - (first + later)
  {
    assert Interval(lo, hi) == Interval(lo, mid) + Interval(mid, hi);
  }

  lemma {:induction false} ActivesOverRun(s: System, es: seq<Event>, s': System)
    requires NewestActive(s) && Runs(s, es, s')
    ensures |s'.rows| == |s.rows| + Creations(es)
    ensures Actives(s'.rows) == Actives(s.rows) + Interval(|s.rows|, |s'.rows|) - RetiredIn(s, es, s')
    decreases |es|
  {
    if es == [] {
      assert Interval(|s.rows|, |s'.rows|) == {};
    } else {
      var next := Apply(s, es[0]);
      ActivesStep(s, es[0]);
      NewestActiveKept(s, es[0]);
      ActivesOverRun(next, es[1..], s');
      Compose(Actives(s.rows), |s.rows|, |next.rows|, |s'.rows|, RetiredBy(s, es[0]), RetiredIn(next, es[1..], s'));
    }
  }

  /** Every active key, and every key some rotation has chosen to retire, is among these. */
  predicate Among(s: System, keys: set<Kid>) {
    && Actives(s.rows) <= keys
    && (forall id :: id in s.rotations && !s.rotations[id].Retired? && s.rotations[id].previous.Some? ==>
          s.rotations[id].previous.value in keys)
  }

  lemma AmongKept(s: System, e: Event, keys: set<Kid>)
    requires NewestActive(s) && Among(s, keys) && Enabled(s, e)
    ensures Among(Apply(s, e), keys + Interval(|s.rows|, |Apply(s, e).rows|)) && RetiredBy(s, e) <= keys
  {
    ActivesStep(s, e);
  }

  lemma {:induction false} RetiredAmong(s: System, es: seq<Event>, s': System, keys: set<Kid>)
    requires NewestActive(s) && Among(s, keys) && Runs(s, es, s')
    ensures RetiredIn(s, es, s') <= keys + Interval(|s.rows|, |s'.rows|)
    decreases |es|
  {
    if es == [] {
    } else {
      var next := Apply(s, es[0]);
      ActivesStep(s, es[0]);
      AmongKept(s, es[0], keys);
      NewestActiveKept(s, es[0]);
      ActivesOverRun(next, es[1..], s');
      RetiredAmong(next, es[1..], s', keys + Interval(|s.rows|, |next.rows|));
      assert Interval(|s.rows|, |s'.rows|) == Interval(|s.rows|, |next.rows|) + Interval(|next.rows|, |s'.rows|);
    }
  }

  lemma SizeAfter(start: set<Kid>, created: set<Kid>, retired: set<Kid>)
    requires start !! created && retired <= start + created
    ensures |start + created - retired| == |start| + |created| - |retired|
  {
    assert |start + created| == |start| + |created|;
    assert start + created == (start + created - retired) + retired;
  }

  /** However rotations overlap, and wherever they are abandoned: the keys active at the end are those
      active at the start and those created, without those retired. So their number is unchanged
      exactly when as many different keys were retired as were created. */
  lemma ActiveKeysCount(s0: System, es: seq<Event>, s: System)
    requires Initial(s0) && Runs(s0, es, s)
    ensures |s.rows| == |s0.rows| + Creations(es)
    ensures Actives(s.rows) == Actives(s0.rows) + Interval(|s0.rows|, |s.rows|) - RetiredIn(s0, es, s)
    ensures |Actives(s.rows)| == |Actives(s0.rows)| + Creations(es) - |RetiredIn(s0, es, s)|
    ensures |Actives(s.rows)| == |Actives(s0.rows)| <==> |RetiredIn(s0, es, s)| == Creations(es)
  {
    ActivesOverRun(s0, es, s);
    RetiredAmong(s0, es, s, Actives(s0.rows));
    IntervalSize(|s0.rows|, |s.rows|);
    SizeAfter(Actives(s0.rows), Interval(|s0.rows|, |s.rows|), RetiredIn(s0, es, s));
  }

  /** A rotation by one process leaves the caches of every other process right, and every token issued
      before it verifiable. */
  lemma RotationKeepsOthers(rows: seq<KeyRow>, previous: Option<Kid>, secret: Secret, now: nat, c: Caches, jwt: Jwt)
    ensures CachesOk(rows, now, c) ==> CachesOk(Rotate(rows, previous, secret, now), now, c)
    ensures JwtOk(rows, jwt) ==> JwtOk(Rotate(rows, previous, secret, now), jwt)
  {
    var rows' := Rotate(rows, previous, secret, now);
    assert forall kid, known :: SecretOf(rows, kid, known) ==> SecretOf(rows', kid, known);
  }

  /** Any number of rotations one after the other, each finding whichever active key it finds. */
  ghost predicate SerialRotations(rows: seq<KeyRow>, found: seq<Kid>, rows': seq<KeyRow>)
    decreases |found|
  {
    if found == [] then rows' == rows
    else
      && found[0] in Actives(rows)
      && exists secret, now: nat :: SerialRotations(Rotate(rows, Some(found[0]), secret, now), found[1..], rows')
  }

  /** From one active key, serial rotations end with one active key, the newest. */
  lemma {:induction false} SerialRotationsKeepOne(rows: seq<KeyRow>, found: seq<Kid>, rows': seq<KeyRow>)
    requires SerialRotations(rows, found, rows')
    ensures |Actives(rows')| == |Actives(rows)| && |rows'| == |rows| + |found|
    ensures |Actives(rows)| == 1 && found != [] ==> Actives(rows') == {|rows'| - 1}
    decreases |found|
  {
    if found == [] {
    } else {
      var secret, now: nat :| SerialRotations(Rotate(rows, Some(found[0]), secret, now), found[1..], rows');
      var next := Rotate(rows, Some(found[0]), secret, now);
      RotateSwaps(rows, found[0], secret, now);
      SerialRotationsKeepOne(next, found[1..], rows');
      if |Actives(rows)| == 1 {
        OnlyElement(Actives(rows), found[0]);
        assert Actives(next) == {|rows|};
      }
    }
  }

  lemma OnlyElement(s: set<Kid>, x: Kid)
    requires |s| == 1 && x in s
    ensures s == {x}
  {
    assert |s - {x}| == 0;
  }

  /** The rows after two rotations that both found their key before either retired it. */
  function RotateTwice(rows: seq<KeyRow>, a: Kid, b: Kid, secretA: Secret, secretB: Secret, now: nat): seq<KeyRow> {
    var both := rows + [KeyRow(secretA, true, None)] + [KeyRow(secretB, true, None)];
    Retire(Retire(both, a, now), b, now)
  }

  lemma OverlapActives(rows: seq<KeyRow>, a: Kid, b: Kid, secretA: Secret, secretB: Secret, now: nat)
    ensures Actives(RotateTwice(rows, a, b, secretA, secretB, now)) ==
            Actives(rows) + {|rows|} + {|rows| + 1} - {a} - {b}
  {
    var one := rows + [KeyRow(secretA, true, None)];
    var both := one + [KeyRow(secretB, true, None)];
    CreateActivates(rows, secretA);
    CreateActivates(one, secretB);
    RetireDeactivates(both, a, now);
    RetireDeactivates(Retire(both, a, now), b, now);
  }

  /** Two overlapping rotations leave both their keys active, so the table ends with as many active keys
      as before exactly when they had found different ones. */
  lemma OverlapIsHarmlessIff(rows: seq<KeyRow>, a: Kid, b: Kid, secretA: Secret, secretB: Secret, now: nat)
    requires a in Actives(rows) && b in Actives(rows)
    ensures var rows' := RotateTwice(rows, a, b, secretA, secretB, now);
            && Actives(rows') == Actives(rows) - {a, b} + {|rows|, |rows| + 1}
            && (|Actives(rows')| == |Actives(rows)| <==> a != b)
  {
    OverlapActives(rows, a, b, secretA, secretB, now);
    SwapTwo(Actives(rows), Actives(RotateTwice(rows, a, b, secretA, secretB, now)), a, b, |rows|);
  }

  /** Once both have found their key and created a new one, both retire what they found. */
  lemma BothRetire(s: System, i: Id, j: Id, proc: Id, a: Kid, b: Kid, rows: seq<KeyRow>, n: nat)
    requires i != j
    ensures Reaches(Staged(s, i, Created(proc, Some(a), n), j, Created(proc, Some(b), n + 1), rows),
                    Staged(s, i, Retired(proc, n), j, Retired(proc, n + 1), Retire(Retire(rows, a, s.now), b, s.now)))
  {
    var s4 := Staged(s, i, Created(proc, Some(a), n), j, Created(proc, Some(b), n + 1), rows);
    var s5 := Staged(s, i, Retired(proc, n), j, Created(proc, Some(b), n + 1), Retire(rows, a, s.now));
    var s6 := Staged(s, i, Retired(proc, n), j, Retired(proc, n + 1), Retire(Retire(rows, a, s.now), b, s.now));
    assert Apply(s4, RotateRetire(i)).rotations == s5.rotations;
    assert Apply(s5, RotateRetire(j)).rotations == s6.rotations;
    LastStep(s5, RotateRetire(j));
    ReachesStep(s4, RotateRetire(i), s6);
  }

  /** That schedule is a run: both find, both create, then both retire. */
  lemma OverlapRun(s: System, i: Id, j: Id, proc: Id, a: Kid, b: Kid, secretA: Secret, secretB: Secret)
    requires Enabled(s, RotateFind(i, proc, Some(a))) && Enabled(s, RotateFind(j, proc, Some(b))) && i != j
    ensures Reaches(s, Staged(s, i, Retired(proc, |s.rows|), j, Retired(proc, |s.rows| + 1),
                              RotateTwice(s.rows, a, b, secretA, secretB, s.now)))
  {
    var n, one := |s.rows|, s.rows + [KeyRow(secretA, true, None)];
    var both := one + [KeyRow(secretB, true, None)];
    var s2 := Staged(s, i, Chosen(proc, Some(a)), j, Chosen(proc, Some(b)), s.rows);
    var s3 := Staged(s, i, Created(proc, Some(a), n), j, Chosen(proc, Some(b)), one);
    var s4 := Staged(s, i, Created(proc, Some(a), n), j, Created(proc, Some(b), n + 1), both);
    var end := Staged(s, i, Retired(proc, n), j, Retired(proc, n + 1),
                      RotateTwice(s.rows, a, b, secretA, secretB, s.now));
    assert Apply(s2, RotateCreate(i, secretA)).rotations == s3.rotations;
    assert Apply(s3, RotateCreate(j, secretB)).rotations == s4.rotations;
    BothRetire(s, i, j, proc, a, b, both, n);
    ReachesStep(s3, RotateCreate(j, secretB), end);
    ReachesStep(s2, RotateCreate(i, secretA), end);
    ReachesStep(Apply(s, RotateFind(i, proc, Some(a))), RotateFind(j, proc, Some(b)), end);
    ReachesStep(s, RotateFind(i, proc, Some(a)), end);
  }

  /** `s` with these two rotations at these stages, and these rows. */
  function Staged(s: System, i: Id, first: Rotation, j: Id, second: Rotation, rows: seq<KeyRow>): System {
    s.(rows := rows, rotations := s.rotations[i := first][j := second])
  }

  const ONE_KEY := System(0, [KeyRow("k", true, None)], map[], map[], map[], [])

  /** From one active key, two rotations that found it both end with two active keys. */
  lemma OverlapGrows() returns (s: System)
    ensures Initial(ONE_KEY) && Reaches(ONE_KEY, s)
    ensures |Actives(ONE_KEY.rows)| == 1 && |Actives(s.rows)| == 2
  {
    var booted := Apply(ONE_KEY, Boot(0));
    OverlapRun(booted, 1, 2, 0, 0, 0, "a", "b");
    s := Staged(booted, 1, Retired(0, 1), 2, Retired(0, 2), RotateTwice(booted.rows, 0, 0, "a", "b", 0));
    ReachesStep(ONE_KEY, Boot(0), s);
    OverlapIsHarmlessIff(ONE_KEY.rows, 0, 0, "a", "b", 0);
    assert Actives(ONE_KEY.rows) == {0};
    assert Actives(s.rows) == {1, 2};
  }

  lemma SwapTwo(s: set<Kid>, t: set<Kid>, a: Kid, b: Kid, n: nat)
    requires a in s && b in s && n !in s && n + 1 !in s
    requires t == s + {n} + {n + 1} - {a} - {b}
    ensures t == s - {a, b} + {n, n + 1}
    ensures |t| == |s| <==> a != b
  {
    var rest := s - {a} - {b};
    assert t == rest + {n} + {n + 1} == s - {a, b} + {n, n + 1};
    assert |t| == |rest| + 2;
    assert |s - {a}| == |s| - 1;
  }
}

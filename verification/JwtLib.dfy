/** `lib/jwt.ts` as written: one process's caches over the shared key table and Redis. */
module JwtLib {
  import opened Tokens
  import opened Keys
  import opened Wrappers

  class KeyTable {
    var rows: seq<KeyRow>
    // History: the tokens issued under these keys.
    ghost var issued: seq<Jwt>

    constructor (secret: Secret)
      ensures rows == [KeyRow(secret, true, None)] && issued == []
    {
      rows, issued := [KeyRow(secret, true, None)], [];
    }
  }

  class Redis {
    var blacklist: Blacklist

    constructor ()
      ensures blacklist == map[]
    {
      blacklist := map[];
    }
  }

  /** Clock readings, fresh UUIDs and whether a remote call answers are parameters. */
  class JwtService {
    const table: KeyTable
    const redis: Redis
    var keyCache: map<Kid, Cached>
    var activeKey: Option<ActiveKey>
    var announced: seq<Kid>

    constructor (table: KeyTable, redis: Redis)
      ensures this.table == table && this.redis == redis && announced == []
      ensures View() == Caches(map[], None) && forall now :: Valid(now)
    {
      this.table, this.redis := table, redis;
      keyCache, activeKey, announced := map[], None, [];
    }

    ghost function View(): Caches
      reads this
    {
      Caches(keyCache, activeKey)
    }

    /** The system of all processes, in which this one has this id; `rest` holds what it does not know:
        the caches of the others, and the fetches and rotations under way. */
    ghost function In(rest: System, id: Id, now: nat): System
      reads this, table
    {
      rest.(now := now, rows := table.rows, procs := rest.procs[id := View()], issued := table.issued)
    }

    ghost predicate Valid(now: nat)
      reads this, table
    {
      CachesOk(table.rows, now, View())
    }

    predicate Fresh(id: Kid, now: nat)
      reads this
    {
      id in keyCache && now < keyCache[id].expires
    }

    predicate ActiveFresh(now: nat)
      reads this
    {
      activeKey.Some? && now < activeKey.value.expires
    }

    /** Whatever the others are doing, a call is a run of the whole system.

        The secret returned is the table's whether or not it came from the cache. */
    method FetchKey(id: Kid, now: nat, kms: bool, ghost rest: System, ghost me: Id) returns (r: Result<Secret>)
      requires Valid(now)
      modifies this`keyCache
      ensures Reaches(old(In(rest, me, now)), In(rest, me, now))
      ensures Valid(now)
      ensures r.Ok? <==> id < |table.rows| && ((id in old(keyCache) && now < old(keyCache)[id].expires) || kms)
      ensures r.Ok? ==> r.value == table.rows[id].secret
      ensures keyCache == if r.Ok? && !(id in old(keyCache) && now < old(keyCache)[id].expires)
                          then old(keyCache)[id := Cached(r.value, now + 300_000)] else old(keyCache)
    {
      ghost var start := In(rest, me, now);
      ReachesSelf(start);
      if Fresh(id, now) {
        return Ok(keyCache[id].secret);
      }
      if id >= |table.rows| {
        return Err("key_not_found");
      }
      if !kms {
        return Err("kms");
      }
      r := Ok(table.rows[id].secret);
      keyCache := keyCache[id := Cached(r.value, now + CACHE_MS)];
      ghost var unused := Above(start.fetches.Keys);
      FetchIsRun(start, unused, me, id);
      assert In(rest, me, now) == start.(procs := start.procs[me := View()]);
    }

    /** `findFirst({ where: { active: true } })`: some active row, any of them, or null. */
    method FindActive() returns (found: Option<Kid>)
      ensures found.Some? ==> found.value < |table.rows| && table.rows[found.value].active
      ensures found.None? ==> forall k :: 0 <= k < |table.rows| ==> !table.rows[k].active
      ensures if found.Some? then found.value in Actives(table.rows) else Actives(table.rows) == {}
    {
      var actives := Actives(table.rows);
      NoActives(table.rows);
      if actives == {} {
        return None;
      }
      var k :| k in actives;
      found := Some(k);
    }

    method FetchActiveKey(now: nat, kms: bool, ghost rest: System, ghost me: Id) returns (r: Result<ActiveKey>)
      requires Valid(now)
      modifies this`keyCache, this`activeKey
      ensures Reaches(old(In(rest, me, now)), In(rest, me, now))
      ensures Valid(now)
      ensures r.Ok? <==> || (old(activeKey).Some? && now < old(activeKey).value.expires)
                         || (kms && exists k :: 0 <= k < |table.rows| && table.rows[k].active)
      ensures r.Ok? ==>
                && activeKey == Some(r.value) && now < r.value.expires
                && r.value.kid < |table.rows| && table.rows[r.value.kid].secret == r.value.secret
                && ActiveSince(table.rows, r.value.kid, r.value.readAt)
      ensures r.Ok? && !(old(activeKey).Some? && now < old(activeKey).value.expires) ==>
                var (k, secret) := (r.value.kid, r.value.secret);
                && k < |table.rows| && table.rows[k].active
                && r.value == ActiveKey(k, secret, now + 300_000, now, now)
                && keyCache == old(keyCache)[k := Cached(secret, now + 300_000)]
      ensures r.Err? || (old(activeKey).Some? && now < old(activeKey).value.expires) ==>
                keyCache == old(keyCache) && activeKey == old(activeKey)
    {
      ghost var start := In(rest, me, now);
      ReachesSelf(start);
      if ActiveFresh(now) {
        return Ok(activeKey.value);
      }
      var found := FindActive();
      if found.None? {
        return Err("no_active_key");
      }
      var id := found.value;
      if !kms {
        return Err("kms");
      }
      var secret := table.rows[id].secret;
      activeKey := Some(ActiveKey(id, secret, now + CACHE_MS, now, now));
      keyCache := keyCache[id := Cached(secret, now + CACHE_MS)];
      r := Ok(activeKey.value);
      ghost var unused := Above(start.fetches.Keys);
      FetchActiveIsRun(start, unused, me, id);
      assert In(rest, me, now) == start.(procs := start.procs[me := View()]);
    }

    /** Both tokens are signed by one key, carry the same identity, their own ids, and differ in lifetime. */
    method IssueJwt(user: string, roles: seq<string>, attrs: map<string, string>, tenantId: string,
                    accessId: Jti, refreshId: Jti, now: nat, kms: bool, ghost rest: System, ghost me: Id)
      returns (r: Result<(Jwt, Jwt)>)
      requires Valid(now)
      modifies this`keyCache, this`activeKey, table`issued
      ensures Valid(now) && Reaches(old(In(rest, me, now)), In(rest, me, now))
      ensures r.Ok? <==> || (old(activeKey).Some? && now < old(activeKey).value.expires)
                         || (kms && exists k :: 0 <= k < |table.rows| && table.rows[k].active)
      ensures table.issued == old(table.issued) + (if r.Ok? then [r.value.0, r.value.1] else [])
      ensures r.Ok? ==>
                var (access, refresh) := r.value;
                && access.kid.Some? && access.kid.value < |table.rows|
                && access.signedWith == table.rows[access.kid.value].secret
                && refresh.kid == access.kid && refresh.signedWith == access.signedWith
                && access.payload == Payload(user, accessId, roles, attrs, tenantId)
                && refresh.payload == Payload(user, refreshId, roles, attrs, tenantId)
                && access.token == Token(now, 15 * 60) && refresh.token == Token(now, 30 * 24 * 60 * 60)
    {
      ghost var start := In(rest, me, now);
      var key := FetchActiveKey(now, kms, rest, me);
      if key.Err? {
        return Err(key.error);
      }
      var k := key.value;
      var mine := Payload(user, accessId, roles, attrs, tenantId);
      var renewal := Payload(user, refreshId, roles, attrs, tenantId);
      var access := Jwt(Some(k.kid), mine, Token(now, ACCESS_SECONDS), k.secret);
      var refresh := Jwt(Some(k.kid), renewal, Token(now, REFRESH_SECONDS), k.secret);
      ghost var fetched := In(rest, me, now);
      table.issued := table.issued + [access, refresh];
      IssueIsRun(fetched, me, mine, ACCESS_SECONDS, renewal, REFRESH_SECONDS);
      ReachesTransitive(start, fetched, In(rest, me, now));
      r := Ok((access, refresh));
    }

    /** `None` is a token whose header does not decode. A token passes exactly when its `kid` is a row whose
        secret can be had and signed it, it has not expired, it has an id, and Redis answers and does not
        list that id; then its own payload is returned. Otherwise the first test it fails is told. When
        every remote call answers, the verdict is that of the key table alone. */
    method ValidateJwt(token: Option<Jwt>, verifiedAt: nat, lookedUpAt: nat, kms: bool, redisUp: bool,
                       ghost rest: System, ghost me: Id)
      returns (v: Validation)
      requires Valid(verifiedAt)
      modifies this`keyCache
      ensures Reaches(old(In(rest, me, verifiedAt)), In(rest, me, verifiedAt))
      ensures Valid(verifiedAt)
      ensures token.None? ==> v == NotValid("invalid")
      ensures token.Some? && token.value.kid.None? ==> v == NotValid("kid_missing")
      ensures token.Some? && token.value.kid.Some? ==>
                var (jwt, k) := (token.value, token.value.kid.value);
                var cached := k in old(keyCache) && verifiedAt < old(keyCache)[k].expires;
                var hasKey := k < |table.rows| && (cached || kms);
                var verifies := && hasKey && table.rows[k].secret == jwt.signedWith
                                && verifiedAt < (jwt.token.issuedAt / 1000 + jwt.token.lifetime) * 1000;
                var jti := jwt.payload.jti;
                var listed := jti in redis.blacklist && lookedUpAt < redis.blacklist[jti];
                && (v.Valid? <==> verifies && jti != "" && redisUp && !listed)
                && (v.Valid? ==> v.payload == jwt.payload)
                && (v == NotValid("invalid") <==> !verifies || (jti != "" && !redisUp))
                && (v == NotValid("jti_missing") <==> verifies && jti == "")
                && (v == NotValid("revoked") <==> verifies && jti != "" && redisUp && listed)
      ensures token.Some? && kms && redisUp ==>
                v == Validate(TableKey(table.rows, token.value), token.value, redis.blacklist, verifiedAt, lookedUpAt)
      ensures token.Some? && kms && redisUp && JwtOk(table.rows, token.value) && token.value.payload.jti != "" ==>
                v == Judged(token.value, redis.blacklist, verifiedAt, lookedUpAt)
    {
      ReachesSelf(In(rest, me, verifiedAt));
      if token.None? {
        return NotValid("invalid");
      }
      var jwt := token.value;
      ExpiredIff(jwt.token, verifiedAt);
      if JwtOk(table.rows, jwt) && jwt.payload.jti != "" {
        IssuedValidates(table.rows, jwt, redis.blacklist, verifiedAt, lookedUpAt);
      }
      if jwt.kid.None? {
        return NotValid("kid_missing");
      }
      var key := FetchKey(jwt.kid.value, verifiedAt, kms, rest, me);
      if key.Err? || key.value != jwt.signedWith || Expired(jwt.token, verifiedAt) {
        return NotValid("invalid");
      }
      if jwt.payload.jti == "" {
        return NotValid("jti_missing");
      }
      if !redisUp {
        return NotValid("invalid");
      }
      if Listed(redis.blacklist, jwt.payload.jti, lookedUpAt) {
        return NotValid("revoked");
      }
      v := Validation.Valid(jwt.payload);
    }

    /** The statements of a rotation that touch the key table and the caches, after the key to retire was
        found: create, retire, cache the new key and drop the cached active one. */
    method SwapKey(found: Option<Kid>, secret: Secret, now: nat, calls: nat) returns (id: Option<Kid>)
      modifies this, table
      ensures unchanged(`announced) && table.issued == old(table.issued)
      ensures id == if RotationCalls(found) <= calls then Some(|old(table.rows)|) else None
      ensures table.rows == RowsAfter(old(table.rows), found, secret, now, calls)
      ensures keyCache == if id.Some? then old(keyCache)[id.value := Cached(secret, now + 300_000)] else old(keyCache)
      ensures activeKey == if id.Some? then None else old(activeKey)
    {
      if calls < 2 { return None; }  // findFirst, create
      var new_ := |table.rows|;
      table.rows := table.rows + [KeyRow(secret, true, None)];
      if found.Some? {
        if calls < 3 { return None; }  // update
        table.rows := Retire(table.rows, found.value, now);
      }
      activeKey := None;
      keyCache := keyCache[new_ := Cached(secret, now + CACHE_MS)];
      id := Some(new_);
    }

    /** Create, then retire the key found before, then drop the cached active key and announce the new
        one. The first `calls` remote calls answer: find, create, retire (if a key was found), then the
        producer's connect, send and disconnect. Whichever fails, the call is a run of the key system. */
    method RotateKeys(secret: Secret, now: nat, calls: nat, ghost rest: System, ghost me: Id)
      returns (ok: bool, ghost previous: Option<Kid>)
      requires Valid(now)
      modifies this, table
      ensures Reaches(old(In(rest, me, now)), In(rest, me, now))
      ensures Valid(now) && table.issued == old(table.issued)
      ensures if previous.Some? then previous.value < |old(table.rows)| && old(table.rows)[previous.value].active
              else forall k :: 0 <= k < |old(table.rows)| ==> !old(table.rows)[k].active
      ensures |table.rows| == |old(table.rows)| + (if calls < 2 then 0 else 1)
      ensures forall k :: 0 <= k < |old(table.rows)| ==>
                table.rows[k] == if previous == Some(k) && 3 <= calls
                                 then KeyRow(old(table.rows)[k].secret, false, Some(now)) else old(table.rows)[k]
      ensures 2 <= calls ==> table.rows[|old(table.rows)|] == KeyRow(secret, true, None)
      ensures var done := if previous.Some? then 3 else 2;
              && keyCache == (if done <= calls then old(keyCache)[|old(table.rows)| := Cached(secret, now + 300_000)]
                              else old(keyCache))
              && activeKey == (if done <= calls then None else old(activeKey))
              && announced == old(announced) + (if done + 2 <= calls then [|old(table.rows)|] else [])
              && (ok <==> done + 3 <= calls)
    {
      ghost var start := In(rest, me, now);
      ghost var unused := Above(start.rotations.Keys);
      var found := FindActive();
      previous := found;
      RowsAfterAt(table.rows, found, secret, now, calls);
      RotatedIsRun(start, unused, me, found, secret, calls);
      var id := SwapKey(found, secret, now, calls);
      assert In(rest, me, now) == Rotated(start, me, found, secret, calls);
      if id.None? { return false, previous; }
      var left := calls - (if found.Some? then 3 else 2);
      if left < 2 { return false, previous; }  // connect, send
      announced := announced + [id.value];
      ok := 3 <= left;
    }

    /** A write that is final for a token issued before it exactly when its lifetime reaches the token's
        `exp`, and that says nothing of any other token. */
    method RevokeToken(jti: Jti, ttl: int, now: nat)
      modifies redis
      ensures redis.blacklist == if ttl <= 0 then old(redis.blacklist)
                                 else old(redis.blacklist)[jti := now + ttl * 1000]
      ensures forall t: Token :: ttl > 0 && t.issuedAt <= now ==>
                (RejectedFrom(t, jti, redis.blacklist, now) <==> Expired(t, now) || Exp(t) * 1000 <= now + ttl * 1000)
      ensures forall t: Token :: t.issuedAt <= now && t.lifetime <= ttl && 0 < ttl ==>
                RejectedFrom(t, jti, redis.blacklist, now)
      ensures forall other, at :: other != jti ==>
                (Listed(redis.blacklist, other, at) <==> Listed(old(redis.blacklist), other, at))
    {
      if ttl > 0 {
        forall t: Token | t.issuedAt <= now
          ensures RejectedFrom(t, jti, List(redis.blacklist, jti, ttl, now), now) <==>
                  Expired(t, now) || Exp(t) * 1000 <= now + ttl * 1000
          ensures t.lifetime <= ttl ==> RejectedFrom(t, jti, List(redis.blacklist, jti, ttl, now), now)
        {
          ListingIsFinalIff(t, jti, redis.blacklist, ttl, now);
        }
        redis.blacklist := List(redis.blacklist, jti, ttl, now);
      }
    }
  }

  /** The verdict on a well-signed token: that of its own times and the blacklist. */
  function Judged(jwt: Jwt, blacklist: Blacklist, verifiedAt: nat, lookedUpAt: nat): Validation {
    match Judge(jwt.token, jwt.payload.jti, blacklist, verifiedAt, lookedUpAt)
    case Accepted => Validation.Valid(jwt.payload)
    case Revoked => NotValid("revoked")
    case Invalid => NotValid("invalid")
  }

  /** What `IssueJwt` signed, `ValidateJwt` accepts with the same payload, at whichever process, until the
      token expires or is blacklisted. */
  lemma IssuedValidates(rows: seq<KeyRow>, jwt: Jwt, blacklist: Blacklist, verifiedAt: nat, lookedUpAt: nat)
    requires JwtOk(rows, jwt) && jwt.payload.jti != ""
    ensures Validate(TableKey(rows, jwt), jwt, blacklist, verifiedAt, lookedUpAt) ==
            Judged(jwt, blacklist, verifiedAt, lookedUpAt)
  {}

  /** The secret of a JWT's `kid`, read from the table without any cache. */
  function TableKey(rows: seq<KeyRow>, jwt: Jwt): Option<Secret> {
    if jwt.kid.Some? && jwt.kid.value < |rows| then Some(rows[jwt.kid.value].secret) else None
  }
}

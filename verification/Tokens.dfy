/** Tokens, their expiry, and the Redis blacklist every revocation path writes to.
    Clock readings are milliseconds; `iat`, `exp` and Redis lifetimes are seconds. */
module Tokens {
  type Jti = string

  /** Redis keys `jwt:blacklist:<jti>`, each with the millisecond at which Redis drops it. */
  type Blacklist = map<Jti, nat>

  /** The claims a token carries about its subject. */
  datatype Payload = Payload(sub: string, jti: Jti, roles: seq<string>, attrs: map<string, string>, tenantId: string)

  const ACCESS_SECONDS: nat := 15 * 60
  const REFRESH_SECONDS: nat := 30 * 24 * 60 * 60
  const SESSION_TTL: nat := 900
  const REVOKER_TTL: nat := 24 * 60 * 60

  /** A signed token: the millisecond it was issued at and its lifetime in seconds. */
  datatype Token = Token(issuedAt: nat, lifetime: nat)

  /** The `exp` claim (section 4.1.4 of RFC 7519): the issue time floored to seconds, plus the lifetime. */
  function Exp(t: Token): nat {
    t.issuedAt / 1000 + t.lifetime
  }

  /** Verification floors the clock to seconds too, and refuses `exp <= now`. */
  predicate Expired(t: Token, now: nat) {
    Exp(t) <= now / 1000
  }

  predicate Listed(blacklist: Blacklist, jti: Jti, now: nat) {
    jti in blacklist && now < blacklist[jti]
  }

  function List(blacklist: Blacklist, jti: Jti, ttl: nat, now: nat): Blacklist {
    blacklist[jti := now + ttl * 1000]
  }

  datatype Verdict = Accepted | Revoked | Invalid

  /** Expiry is judged first, then the blacklist is read. The two readings of the clock are
      separate because the Redis call is awaited between them. */
  function Judge(t: Token, jti: Jti, blacklist: Blacklist, verifiedAt: nat, lookedUpAt: nat): Verdict {
    if Expired(t, verifiedAt) then Invalid
    else if Listed(blacklist, jti, lookedUpAt) then Revoked
    else Accepted
  }

  /** From `now` on, no validation of the token accepts it while the blacklist entry stays as it is. */
  ghost predicate RejectedFrom(t: Token, jti: Jti, blacklist: Blacklist, now: nat) {
    forall at: nat :: now <= at ==> Judge(t, jti, blacklist, at, at) != Accepted
  }

  /** Flooring both clocks to seconds moves the deadline to exactly `exp` thousand milliseconds. */
  lemma ExpiredIff(t: Token, now: nat)
    ensures Expired(t, now) <==> Exp(t) * 1000 <= now
  {
    assert now == now / 1000 * 1000 + now % 1000;
  }

  /** A blacklist entry rejects the token for good exactly when it outlives `exp`. */
  lemma RejectedFromIff(t: Token, jti: Jti, blacklist: Blacklist, now: nat)
    ensures RejectedFrom(t, jti, blacklist, now) <==>
            Expired(t, now) || (jti in blacklist && Exp(t) * 1000 <= blacklist[jti])
  {
    ExpiredIff(t, now);
    forall at: nat | now <= at {
      ExpiredIff(t, at);
    }
    if RejectedFrom(t, jti, blacklist, now) && !Expired(t, now) {
      var last := Exp(t) * 1000 - 1;
      assert now <= last;
      assert Judge(t, jti, blacklist, last, last) != Accepted;
      assert Judge(t, jti, blacklist, now, now) != Accepted;
    }
  }

  /** The entry that a write at `now` with lifetime `ttl` leaves is final for a token issued earlier
      exactly when the write reaches `exp`. */
  lemma ListingIsFinalIff(t: Token, jti: Jti, blacklist: Blacklist, ttl: nat, now: nat)
    requires t.issuedAt <= now
    ensures RejectedFrom(t, jti, List(blacklist, jti, ttl, now), now) <==>
            Expired(t, now) || Exp(t) * 1000 <= now + ttl * 1000
    ensures t.lifetime <= ttl ==> RejectedFrom(t, jti, List(blacklist, jti, ttl, now), now)
  {
    RejectedFromIff(t, jti, List(blacklist, jti, ttl, now), now);
    assert t.issuedAt / 1000 * 1000 <= t.issuedAt;
  }

  /** Both lifetimes in use cover every access token; neither covers a refresh token younger than 29 days. */
  lemma LifetimesInUse(t: Token, jti: Jti, blacklist: Blacklist, now: nat)
    requires t.issuedAt <= now
    ensures t.lifetime == ACCESS_SECONDS ==>
              && RejectedFrom(t, jti, List(blacklist, jti, SESSION_TTL, now), now)
              && RejectedFrom(t, jti, List(blacklist, jti, REVOKER_TTL, now), now)
    ensures t.lifetime == REFRESH_SECONDS && now + 1000 < t.issuedAt + 29 * 24 * 60 * 60 * 1000 ==>
              && !RejectedFrom(t, jti, List(blacklist, jti, SESSION_TTL, now), now)
              && !RejectedFrom(t, jti, List(blacklist, jti, REVOKER_TTL, now), now)
  {
    ListingIsFinalIff(t, jti, blacklist, SESSION_TTL, now);
    ListingIsFinalIff(t, jti, blacklist, REVOKER_TTL, now);
    ExpiredIff(t, now);
    assert t.issuedAt < t.issuedAt / 1000 * 1000 + 1000;
  }
}

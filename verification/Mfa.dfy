/** `routes/mfa.ts`: single-use, expiring challenges, handled one request at a time. */
module Mfa {
  import opened Wrappers

  type Uuid = string

  /** Whether a one-time code is accepted for a secret at a time (a window of one step around it). */
  type Totp = (string, string, nat) -> bool

  const CHALLENGE_MS: nat := 5 * 60 * 1000
  const RISK_THRESHOLD: int := 60

  datatype Challenge = Challenge(user: string, secret: string, expiresAt: nat, verifiedAt: Option<nat>)

  /** A token handed out, with the challenge and the code that earned it. */
  datatype Grant = Grant(uuid: Uuid, user: string, code: string, at: nat)

  /** `markers` are the Redis keys `mfa:<uuid>` with the millisecond at which each is dropped. */
  datatype State = State(now: nat, challenges: map<Uuid, Challenge>, markers: map<Uuid, nat>, grants: seq<Grant>)

  datatype Event =
    | Tick(ms: nat)
    | Evaluate(uuid: Uuid, user: string, secret: string, risk: int, device: string, known: set<string>)
      // `calls` is how many of the calls after a correct code answer: the row update, the marker
      // deletion, and the rest up to the signed token.
    | Verify(uuid: Uuid, code: string, calls: nat)

  predicate NeedsMfa(risk: int, device: string, known: set<string>) {
    risk >= RISK_THRESHOLD || device !in known
  }

  predicate Open(s: State, uuid: Uuid) {
    && uuid in s.markers && s.now < s.markers[uuid]
    && uuid in s.challenges && s.now <= s.challenges[uuid].expiresAt && s.challenges[uuid].verifiedAt.None?
  }

  predicate Succeeds(totp: Totp, s: State, uuid: Uuid, code: string) {
    Open(s, uuid) && totp(s.challenges[uuid].secret, code, s.now)
  }

  predicate Enabled(s: State, e: Event) {
    // A challenge id is a fresh UUID.
    e.Evaluate? ==> e.uuid !in s.challenges && e.uuid !in s.markers
  }

  function Apply(totp: Totp, s: State, e: Event): State {
    match e
    case Tick(ms) => s.(now := s.now + ms)
    case Evaluate(uuid, user, secret, risk, device, known) =>
      if NeedsMfa(risk, device, known) then
        s.(challenges := s.challenges[uuid := Challenge(user, secret, s.now + CHALLENGE_MS, None)],
           markers := s.markers[uuid := s.now + CHALLENGE_MS])
      else s
    case Verify(uuid, code, calls) =>
      if !Succeeds(totp, s, uuid, code) || calls == 0 then s
      else
        var c := s.challenges[uuid];
        s.(challenges := s.challenges[uuid := c.(verifiedAt := Some(s.now))],
           markers := if calls == 1 then s.markers else s.markers - {uuid},
           grants := if calls <= 2 then s.grants else s.grants + [Grant(uuid, c.user, code, s.now)])
  }

  predicate Runs(totp: Totp, s: State, es: seq<Event>, s': State)
    decreases |es|
  {
    if es == [] then s' == s
    else Enabled(s, es[0]) && Runs(totp, Apply(totp, s, es[0]), es[1..], s')
  }

  ghost predicate Inv(totp: Totp, s: State) {
    && (forall i :: 0 <= i < |s.grants| ==> GrantOk(totp, s, s.grants[i]))
    && (forall i, j :: 0 <= i < j < |s.grants| ==> s.grants[i].uuid != s.grants[j].uuid)
  }

  predicate GrantOk(totp: Totp, s: State, g: Grant) {
    && g.uuid in s.challenges
    && var c := s.challenges[g.uuid];
       c.verifiedAt == Some(g.at) && c.user == g.user && g.at <= c.expiresAt && totp(c.secret, g.code, g.at)
  }

  lemma StepKeepsInv(totp: Totp, s: State, e: Event)
    requires Inv(totp, s) && Enabled(s, e)
    ensures Inv(totp, Apply(totp, s, e))
  {
    var s' := Apply(totp, s, e);
    forall g | GrantOk(totp, s, g) ensures GrantOk(totp, s', g) {}
  }

  lemma {:induction false} RunKeepsInv(totp: Totp, s: State, es: seq<Event>, s': State)
    requires Inv(totp, s) && Runs(totp, s, es, s')
    ensures Inv(totp, s')
    decreases |es|
  {
    if es == [] {
    } else {
      StepKeepsInv(totp, s, es[0]);
      RunKeepsInv(totp, Apply(totp, s, es[0]), es[1..], s');
    }
  }

  /** In any serial run each challenge yields at most one token, to its own user, no later than its
      expiry, and for a code that was accepted then. */
  lemma GrantsAreEarnedOnce(totp: Totp, s0: State, es: seq<Event>, s: State, i: nat)
    requires s0.challenges == map[] && s0.markers == map[] && s0.grants == [] && Runs(totp, s0, es, s)
    requires i < |s.grants|
    ensures GrantOk(totp, s, s.grants[i])
    ensures forall j :: 0 <= j < |s.grants| && j != i ==> s.grants[j].uuid != s.grants[i].uuid
  {
    RunKeepsInv(totp, s0, es, s);
  }

  /** Once verified, or once its time is over, a challenge is refused for ever. */
  lemma {:induction false} ClosedForever(totp: Totp, s: State, es: seq<Event>, s': State, uuid: Uuid, code: string)
    requires Runs(totp, s, es, s') && uuid in s.challenges
    requires s.challenges[uuid].verifiedAt.Some? || s.challenges[uuid].expiresAt < s.now
    ensures !Succeeds(totp, s', uuid, code) && forall calls :: Apply(totp, s', Verify(uuid, code, calls)) == s'
    decreases |es|
  {
    if es == [] {
    } else {
      var next := Apply(totp, s, es[0]);
      assert uuid in next.challenges && next.challenges[uuid].expiresAt == s.challenges[uuid].expiresAt;
      ClosedForever(totp, next, es[1..], s', uuid, code);
    }
  }

  /** A challenge is made exactly for a risky login or an unknown device, and it can then be verified with
      an accepted code for five minutes and no longer: its row and its marker lapse together. */
  lemma FreshChallengeIsOpenFor(totp: Totp, s: State, e: Event, ms: nat, code: string)
    requires e.Evaluate? && Enabled(s, e)
    ensures var s' := Apply(totp, Apply(totp, s, e), Tick(ms));
            Succeeds(totp, s', e.uuid, code) <==>
              && (e.risk >= 60 || e.device !in e.known)
              && ms < 5 * 60 * 1000
              && totp(e.secret, code, s.now + ms)
  {}

  /** A verification changes something exactly when the challenge is open and the code is accepted (and
      the first write answers); a failed attempt changes nothing. */
  lemma VerifyChangesIff(totp: Totp, s: State, uuid: Uuid, code: string, calls: nat)
    ensures Apply(totp, s, Verify(uuid, code, calls)) != s <==> Succeeds(totp, s, uuid, code) && calls > 0
    ensures Apply(totp, s, Verify(uuid, code, calls)).grants != s.grants <==> Succeeds(totp, s, uuid, code) && calls > 2
  {
    if Succeeds(totp, s, uuid, code) && calls > 0 {
      assert Apply(totp, s, Verify(uuid, code, calls)).challenges[uuid].verifiedAt != s.challenges[uuid].verifiedAt;
      if calls > 2 {
        assert |Apply(totp, s, Verify(uuid, code, calls)).grants| == |s.grants| + 1;
      }
    }
  }

  /** Some step of this run verifies the challenge with success, as far as its row. */
  predicate Answered(totp: Totp, s: State, es: seq<Event>, uuid: Uuid)
    decreases |es|
  {
    es != [] && ((es[0].Verify? && es[0].uuid == uuid && es[0].calls > 0 && Succeeds(totp, s, uuid, es[0].code))
                 || Answered(totp, Apply(totp, s, es[0]), es[1..], uuid))
  }

  /** This challenge has this row, verified or not, and its marker if it is not. */
  predicate Holds(s: State, uuid: Uuid, c: Challenge, until: nat, answered: bool) {
    && uuid in s.challenges && s.challenges[uuid].(verifiedAt := None) == c
    && (s.challenges[uuid].verifiedAt.Some? <==> answered)
    && (!answered ==> uuid in s.markers && s.markers[uuid] == until)
  }

  lemma HoldsNext(totp: Totp, s: State, e: Event, uuid: Uuid, c: Challenge, until: nat, answered: bool)
    requires Enabled(s, e) && Holds(s, uuid, c, until, answered)
    ensures Holds(Apply(totp, s, e), uuid, c, until,
                  answered || (e.Verify? && e.uuid == uuid && e.calls > 0 && Succeeds(totp, s, uuid, e.code)))
  {}

  lemma {:induction false} HoldsOverRun(totp: Totp, s: State, es: seq<Event>, s': State, uuid: Uuid, c: Challenge,
                                        until: nat, answered: bool)
    requires Runs(totp, s, es, s') && Holds(s, uuid, c, until, answered)
    ensures Holds(s', uuid, c, until, answered || Answered(totp, s, es, uuid)) && s.now <= s'.now
    decreases |es|
  {
    if es == [] {
    } else {
      var own := es[0].Verify? && es[0].uuid == uuid && es[0].calls > 0 && Succeeds(totp, s, uuid, es[0].code);
      HoldsNext(totp, s, es[0], uuid, c, until, answered);
      HoldsOverRun(totp, Apply(totp, s, es[0]), es[1..], s', uuid, c, until, answered || own);
    }
  }

  /** Whatever challenges are made or verified in between, by whomever: a code is good for a challenge
      exactly when less than five minutes have passed since it was made, none of its own verifications has
      succeeded, and the code is accepted. */
  lemma OpenUntil(totp: Totp, s: State, e: Event, es: seq<Event>, s': State, code: string)
    requires e.Evaluate? && Enabled(s, e) && (e.risk >= 60 || e.device !in e.known)
    requires Runs(totp, Apply(totp, s, e), es, s')
    ensures Succeeds(totp, s', e.uuid, code) <==>
              && s'.now < s.now + 5 * 60 * 1000 && totp(e.secret, code, s'.now)
              && !Answered(totp, Apply(totp, s, e), es, e.uuid)
  {
    var made, until := Apply(totp, s, e), s.now + CHALLENGE_MS;
    HoldsOverRun(totp, made, es, s', e.uuid, Challenge(e.user, e.secret, until, None), until, false);
  }

  // ----- The handlers ------------------------------------------------------------------------------

  datatype Reply = NotRequired | Challenged(uuid: Uuid, expiresAt: nat) | InvalidCode | Token(user: string) | Failed

  class Plugin {
    const totp: Totp
    var challenges: map<Uuid, Challenge>
    var markers: map<Uuid, nat>
    ghost var grants: seq<Grant>

    constructor (totp: Totp)
      ensures this.totp == totp && challenges == map[] && markers == map[] && grants == []
    {
      this.totp, challenges, markers, grants := totp, map[], map[], [];
    }

    ghost function View(now: nat): State
      reads this
    {
      State(now, challenges, markers, grants)
    }

    method EvaluateRisk(uuid: Uuid, user: string, secret: string, risk: int, device: string, known: set<string>,
                        now: nat) returns (r: Reply)
      requires uuid !in challenges && uuid !in markers
      modifies this
      ensures View(now) == Apply(totp, old(View(now)), Evaluate(uuid, user, secret, risk, device, known))
      ensures r == if risk >= 60 || device !in known then Challenged(uuid, now + 300_000) else NotRequired
      ensures r.NotRequired? ==> challenges == old(challenges) && markers == old(markers)
      ensures r.Challenged? ==>
                && challenges == old(challenges)[uuid := Challenge(user, secret, now + 300_000, None)]
                && markers == old(markers)[uuid := now + 300_000]
      ensures grants == old(grants)
      ensures forall later: nat, code :: now <= later ==>
                (Succeeds(totp, View(later), uuid, code) <==>
                   (risk >= 60 || device !in known) && later < now + 5 * 60 * 1000 && totp(secret, code, later))
    {
      ghost var before, e := View(now), Evaluate(uuid, user, secret, risk, device, known);
      r := NotRequired;
      if NeedsMfa(risk, device, known) {
        challenges := challenges[uuid := Challenge(user, secret, now + CHALLENGE_MS, None)];
        markers := markers[uuid := now + CHALLENGE_MS];
        r := Challenged(uuid, now + CHALLENGE_MS);
      }
      forall later: nat, code | now <= later
        ensures Succeeds(totp, View(later), uuid, code) <==>
                (risk >= 60 || device !in known) && later < now + 5 * 60 * 1000 && totp(secret, code, later)
      {
        FreshChallengeIsOpenFor(totp, before, e, later - now, code);
        assert View(later) == Apply(totp, View(now), Tick(later - now));
      }
    }

    method VerifyCode(uuid: Uuid, code: string, calls: nat, now: nat) returns (r: Reply)
      modifies this
      ensures View(now) == Apply(totp, old(View(now)), Verify(uuid, code, calls))
      ensures r.InvalidCode? <==>
                !(&& uuid in old(markers) && now < old(markers)[uuid] && uuid in old(challenges)
                  && var c := old(challenges)[uuid];
                     now <= c.expiresAt && c.verifiedAt.None? && totp(c.secret, code, now))
      ensures View(now) == old(View(now)) <==> r.InvalidCode? || calls == 0
      ensures challenges == if r.InvalidCode? || calls == 0 then old(challenges)
                            else old(challenges)[uuid := old(challenges)[uuid].(verifiedAt := Some(now))]
      ensures markers == if r.InvalidCode? || calls <= 1 then old(markers) else old(markers) - {uuid}
      ensures r.Token? <==> !r.InvalidCode? && calls > 2
      ensures r.Token? ==> r.user == old(challenges)[uuid].user
      ensures grants == old(grants) + (if r.Token? then [Grant(uuid, old(challenges)[uuid].user, code, now)] else [])
    {
      VerifyChangesIff(totp, View(now), uuid, code, calls);
      var marked := uuid in markers && now < markers[uuid];
      if !marked || uuid !in challenges || challenges[uuid].expiresAt < now || challenges[uuid].verifiedAt.Some? {
        return InvalidCode;
      }
      var c := challenges[uuid];
      if !totp(c.secret, code, now) {
        return InvalidCode;
      }
      if calls == 0 { return Failed; }
      challenges := challenges[uuid := c.(verifiedAt := Some(now))];
      if calls == 1 { return Failed; }
      markers := markers - {uuid};
      if calls == 2 { return Failed; }
      grants := grants + [Grant(uuid, c.user, code, now)];
      r := Token(c.user);
    }
  }
}

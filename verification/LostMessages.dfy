/** Which messages the orchestrator loses, told by the events of the run alone; and a run in which it loses
    one, and one in which it stops taking any. */
module LostMessages {
  import opened Pipeline
  import opened Orchestrator
  import opened OrchestratorLoops

  lemma {:induction false} Snoc(s: System, es: seq<Event>, s': System) returns (mid: System)
    requires es != [] && Runs(s, es, s')
    ensures Runs(s, es[..|es| - 1], mid) && Enabled(mid, es[|es| - 1]) && s' == Apply(mid, es[|es| - 1])
    decreases |es|
  {
    if |es| == 1 {
      mid := s;
      assert es[1..] == [];
    } else {
      mid := Snoc(Apply(s, es[0]), es[1..], s');
      assert es[1..][..|es| - 2] == es[..|es| - 1][1..];
    }
  }

  lemma {:induction false} RunsOnce(s: System, es: seq<Event>, s': System, s'': System)
    requires Runs(s, es, s') && Runs(s, es, s'')
    ensures s' == s''
    decreases |es|
  {
    if es == [] {
    } else {
      RunsOnce(Apply(s, es[0]), es[1..], s', s'');
    }
  }

  /** The events up to here led to the last attempt at this message, and the next one is its failure. */
  ghost predicate LastAttempt(s0: System, es: seq<Event>, k: nat, m: Msg) {
    && k < |es| && es[k] == KafkaFailure
    && exists mid :: Runs(s0, es[..k], mid) && AtLastAttempt(mid, m)
  }

  predicate AtLastAttempt(s: System, m: Msg) {
    s.work.Busy? && s.work.msg == m && s.work.attempts + 1 == MAX_ATTEMPTS
  }

  /** Event `n` commits a later offset of the same partition. */
  ghost predicate CommitsBeyond(s0: System, es: seq<Event>, n: nat, m: Msg) {
    && n < |es| && es[n] == Commit
    && exists mid :: Runs(s0, es[..n], mid) && WorksBeyond(mid, m)
  }

  predicate WorksBeyond(s: System, m: Msg) {
    s.work.Busy? && s.work.msg.part == m.part && m.offset < s.work.msg.offset
  }

  predicate NoRestart(es: seq<Event>, lo: nat, hi: nat) {
    forall k :: lo <= k < hi && k < |es| ==> es[k] != CrashRestart
  }

  /** The message was given up, and the process has not restarted since. */
  ghost predicate GivenUp(s0: System, es: seq<Event>, m: Msg) {
    exists k: nat :: LastAttempt(s0, es, k, m) && NoRestart(es, k, |es|)
  }

  /** It was given up, and before any restart a commit passed it. */
  ghost predicate PassedOver(s0: System, es: seq<Event>, m: Msg) {
    exists k: nat, n: nat :: k < n && LastAttempt(s0, es, k, m) && CommitsBeyond(s0, es, n, m) && NoRestart(es, k, n)
  }

  // ----- One event more ------------------------------------------------------------------------------

  lemma LastAttemptSnoc(s0: System, es: seq<Event>, k: nat, m: Msg)
    requires es != [] && k < |es| - 1
    ensures LastAttempt(s0, es, k, m) <==> LastAttempt(s0, es[..|es| - 1], k, m)
    ensures CommitsBeyond(s0, es, k, m) <==> CommitsBeyond(s0, es[..|es| - 1], k, m)
  {
    assert es[..|es| - 1][..k] == es[..k];
  }

  lemma LastAttemptNow(s0: System, es: seq<Event>, mid: System, m: Msg)
    requires es != [] && Runs(s0, es[..|es| - 1], mid)
    ensures LastAttempt(s0, es, |es| - 1, m) <==> es[|es| - 1] == KafkaFailure && AtLastAttempt(mid, m)
    ensures CommitsBeyond(s0, es, |es| - 1, m) <==> es[|es| - 1] == Commit && WorksBeyond(mid, m)
  {
    if other :| Runs(s0, es[..|es| - 1], other) && AtLastAttempt(other, m) { RunsOnce(s0, es[..|es| - 1], mid, other); }
    if other :| Runs(s0, es[..|es| - 1], other) && WorksBeyond(other, m) { RunsOnce(s0, es[..|es| - 1], mid, other); }
  }

  lemma GivenUpSnoc(s0: System, es: seq<Event>, mid: System, m: Msg)
    requires es != [] && Runs(s0, es[..|es| - 1], mid)
    ensures var e := es[|es| - 1];
            GivenUp(s0, es, m) <==>
              (e != CrashRestart && GivenUp(s0, es[..|es| - 1], m)) || (e == KafkaFailure && AtLastAttempt(mid, m))
  {
    var n := |es| - 1;
    LastAttemptNow(s0, es, mid, m);
    forall k: nat | k < n
      ensures LastAttempt(s0, es, k, m) && NoRestart(es, k, |es|) <==>
              LastAttempt(s0, es[..n], k, m) && NoRestart(es[..n], k, n) && es[n] != CrashRestart
    {
      LastAttemptSnoc(s0, es, k, m);
      assert forall i :: k <= i < n ==> es[..n][i] == es[i];
    }
    if GivenUp(s0, es[..n], m) {
      var k: nat :| LastAttempt(s0, es[..n], k, m) && NoRestart(es[..n], k, n);
      assert es[n] != CrashRestart ==> LastAttempt(s0, es, k, m);
    }
  }

  lemma PassedOverSnoc(s0: System, es: seq<Event>, mid: System, m: Msg)
    requires es != [] && Runs(s0, es[..|es| - 1], mid)
    ensures PassedOver(s0, es, m) <==>
              || PassedOver(s0, es[..|es| - 1], m)
              || (es[|es| - 1] == Commit && WorksBeyond(mid, m) && GivenUp(s0, es[..|es| - 1], m))
  {
    var n := |es| - 1;
    LastAttemptNow(s0, es, mid, m);
    forall k: nat | k < n
      ensures LastAttempt(s0, es, k, m) <==> LastAttempt(s0, es[..n], k, m) { LastAttemptSnoc(s0, es, k, m); }
    forall k: nat | k < n
      ensures CommitsBeyond(s0, es, k, m) <==> CommitsBeyond(s0, es[..n], k, m) { LastAttemptSnoc(s0, es, k, m); }
    forall k: nat, l: nat | k <= l <= n ensures NoRestart(es, k, l) <==> NoRestart(es[..n], k, l) {
      assert forall i :: k <= i < l ==> es[..n][i] == es[i];
    }
    if PassedOver(s0, es, m) {
      var k: nat, l: nat :| k < l && LastAttempt(s0, es, k, m) && CommitsBeyond(s0, es, l, m) && NoRestart(es, k, l);
      assert LastAttempt(s0, es[..n], k, m);
    }
    if PassedOver(s0, es[..n], m) {
      var k: nat, l: nat :| k < l && LastAttempt(s0, es[..n], k, m) && CommitsBeyond(s0, es[..n], l, m)
                              && NoRestart(es[..n], k, l);
      assert LastAttempt(s0, es, k, m) && CommitsBeyond(s0, es, l, m) && NoRestart(es, k, l);
    }
    if es[n] == Commit && WorksBeyond(mid, m) && GivenUp(s0, es[..n], m) {
      var k: nat :| LastAttempt(s0, es[..n], k, m) && NoRestart(es[..n], k, n);
      assert LastAttempt(s0, es, k, m) && CommitsBeyond(s0, es, n, m) && NoRestart(es, k, n);
    }
  }

  // ----- The histories are what the events say ---------------------------------------------------------

  lemma {:induction false} AbandonedIff(s0: System, es: seq<Event>, s: System, m: Msg)
    requires Initial(s0) && Runs(s0, es, s)
    ensures m in s.abandoned <==> GivenUp(s0, es, m)
    decreases |es|
  {
    if es == [] {
    } else {
      var mid := Snoc(s0, es, s);
      AbandonedIff(s0, es[..|es| - 1], mid, m);
      GivenUpSnoc(s0, es, mid, m);
      InitialInv(s0);
      RunKeepsInv(s0, es[..|es| - 1], mid);
      AbandonedStep(mid, es[|es| - 1], m);
    }
  }

  lemma AbandonedStep(s: System, e: Event, m: Msg)
    requires QueueOk(s) && Enabled(s, e)
    ensures m in Apply(s, e).abandoned <==>
              (e != CrashRestart && m in s.abandoned) || (e == KafkaFailure && AtLastAttempt(s, m))
  {}

  /** Given up and behind the committed offset is lost. */
  ghost predicate BehindIsLost(s: System) {
    forall m :: m in s.abandoned && m.part < |s.committed| && m.offset < s.committed[m.part] ==> m in s.lost
  }

  lemma BehindIsLostKept(s: System, e: Event)
    requires Inv(s) && BehindIsLost(s) && Enabled(s, e)
    ensures BehindIsLost(Apply(s, e))
  {
    if e.Commit? {
      CommitEffect(s);
      CommitStep(s);
      FirstPasses(InFlight(s), s.abandoned, s.committed, s.position);
    } else {
      OnlyCommitMoves(s, e);
      forall m | m in Apply(s, e).abandoned && m !in s.abandoned ensures m == s.work.msg {}
      assert s.work.Busy? ==> InFlight(s)[0] == s.work.msg;
    }
  }

  lemma LostStep(s: System, e: Event, m: Msg)
    requires Inv(s) && BehindIsLost(s) && Enabled(s, e)
    ensures m in Apply(s, e).lost <==> m in s.lost || (e == Commit && m in s.abandoned && WorksBeyond(s, m))
  {
    if e.Commit? {
      CommitEffect(s);
      assert InFlight(s)[0] == s.work.msg;
    } else {
      OnlyCommitMoves(s, e);
    }
  }

  lemma {:induction false} LostOverRun(s0: System, es: seq<Event>, s: System, m: Msg)
    requires Initial(s0) && Runs(s0, es, s)
    ensures Inv(s) && BehindIsLost(s) && (m in s.lost <==> PassedOver(s0, es, m))
    decreases |es|
  {
    if es == [] {
      InitialInv(s0);
    } else {
      var mid := Snoc(s0, es, s);
      var e := es[|es| - 1];
      LostOverRun(s0, es[..|es| - 1], mid, m);
      PassedOverSnoc(s0, es, mid, m);
      AbandonedIff(s0, es[..|es| - 1], mid, m);
      LostStep(mid, e, m);
      BehindIsLostKept(mid, e);
      StepKeepsInv(mid, e);
    }
  }

  /** A message is lost exactly when its fourth attempt was aborted and, before any restart, a later
      offset of its partition was committed. So the committed records of a partition are the images of
      all inputs up to the committed offset but those. */
  lemma LostIff(s0: System, es: seq<Event>, s: System, m: Msg)
    requires Initial(s0) && Runs(s0, es, s)
    ensures m in s.lost <==> PassedOver(s0, es, m)
  {
    LostOverRun(s0, es, s, m);
  }

  // ----- Four attempts ---------------------------------------------------------------------------------

  function Failures(es: seq<Event>): nat {
    if es == [] then 0 else Failures(es[..|es| - 1]) + (if es[|es| - 1] == KafkaFailure then 1 else 0)
  }

  /** Since it was taken, a message in processing has failed as often as its counter says. */
  lemma {:induction false} AttemptsAreFailures(s0: System, es: seq<Event>, s: System) returns (taken: nat)
    requires s0.work.Idle? && Runs(s0, es, s) && s.work.Busy?
    ensures taken < |es| && es[taken] == Take && Failures(es[taken + 1..]) == s.work.attempts
    ensures forall k :: taken < k < |es| ==> es[k] != Take && es[k] != CrashRestart && es[k] != Commit
    decreases |es|
  {
    var mid := Snoc(s0, es, s);
    var e, n := es[|es| - 1], |es| - 1;
    if e == Take {
      taken := n;
      assert es[n + 1..] == [];
    } else {
      taken := AttemptsAreFailures(s0, es[..n], mid);
      assert es[taken + 1..][..n - taken - 1] == es[..n][taken + 1..];
      assert forall k :: 0 <= k < n ==> es[..n][k] == es[k];
    }
  }

  // ----- A run that loses a message, and a run that stops for good ---------------------------------------

  const TWO := System([[Object(false, "a"), Object(false, "b")]], [0], [0], [], [0], [], false, Idle, [], 0,
                      map[], map[])

  const BOTH := TWO.(queue := [Msg(0, 1)], work := Busy(Msg(0, 0), 0, Waiting),
                     arrived := [Msg(0, 0), Msg(0, 1)], position := [2])

  lemma TakesBoth()
    ensures Reaches(TWO, BOTH)
  {
    var one := TWO.(queue := [Msg(0, 0)], arrived := [Msg(0, 0)], position := [1]);
    var both := TWO.(queue := BOTH.arrived, arrived := BOTH.arrived, position := [2]);
    assert Apply(TWO, GetOne(0)) == one;
    assert Apply(one, GetOne(0)) == both;
    assert both.queue[1..] == [Msg(0, 1)];
    assert Apply(both, Take) == BOTH && Runs(BOTH, [], BOTH);
    ReachesStep(both, Take, BOTH);
    ReachesStep(one, GetOne(0), BOTH);
    ReachesStep(TWO, GetOne(0), BOTH);
  }

  const GIVEN_UP := BOTH.(work := Idle, abandoned := map[Msg(0, 0) := 4], finished := 1)

  lemma GivesUp()
    ensures Reaches(BOTH, GIVEN_UP)
  {
    var faults: Faults := [0, 0, 0, 0];
    assert Aborts(faults[2..]) == 2 && Aborts(faults) == 4;
    AttemptsAreARun(BOTH, faults);
  }

  /** Both inputs are taken; all attempts at the first abort, and the second commits past it. */
  lemma LossRun() returns (s: System)
    ensures Initial(TWO) && Reaches(TWO, s)
    ensures s.committed == [2] && s.outputs == [Output(Msg(0, 1), Record("alerts", "b", ""))]
    ensures s.lost == map[Msg(0, 0) := 4] && s.queue == [] && s.work.Idle?
  {
    var second := Apply(GIVEN_UP, Take);
    TakesBoth();
    GivesUp();
    CommittedAttempt(second);
    s := Processed(second, Msg(0, 1), 0);
    ReachesStep(GIVEN_UP, Take, s);
    ReachesTransitive(BOTH, GIVEN_UP, s);
    ReachesTransitive(TWO, BOTH, s);
  }

  /** `taken` of `n` inputs are taken and none is processed. */
  function Filled(n: nat, taken: nat): System {
    var msgs := seq(taken, i requires 0 <= i => Msg(0, i));
    System([seq(n, _ => Object(false, ""))], [0], [0], [], [taken], msgs, taken > PAUSE_ABOVE, Idle, msgs, 0,
           map[], map[])
  }

  lemma {:induction false} Fills(n: nat, taken: nat)
    requires taken <= n && taken <= PAUSE_ABOVE + 1
    ensures Reaches(Filled(n, 0), Filled(n, taken))
    decreases taken
  {
    if taken == 0 {
      assert Runs(Filled(n, 0), [], Filled(n, 0));
    } else {
      var s, s' := Filled(n, taken - 1), Filled(n, taken);
      Fills(n, taken - 1);
      assert s.queue + [Msg(0, taken - 1)] == s'.queue;
      assert Apply(s, GetOne(0)) == s' && Runs(s', [], s');
      ReachesStep(s, GetOne(0), s');
      ReachesTransitive(Filled(n, 0), s, s');
    }
  }

  predicate Drainable(s: System) {
    && s.work.Idle?
    && forall m :: m in s.queue ==> m.part < |s.logs| && m.part < |s.committed| && m.offset < |s.logs[m.part]|
  }

  /** Every queued message can be processed without the consumer taking another one. */
  lemma {:induction false} Drains(s: System) returns (s': System)
    requires Drainable(s)
    ensures Reaches(s, s') && s'.queue == [] && s'.work.Idle?
    ensures s'.paused == s.paused && s'.position == s.position && s'.logs == s.logs
    decreases |s.queue|
  {
    if s.queue == [] {
      s' := s;
      assert Runs(s, [], s);
    } else {
      var taken := Apply(s, Take);
      var next := Processed(taken, s.queue[0], 0);
      CommittedAttempt(taken);
      s' := Drains(next);
      ReachesTransitive(taken, next, s');
      ReachesStep(s, Take, s');
    }
  }

  /** With 10002 inputs waiting the consumer pauses after 10001, and stays paused when all of those are
      processed: whatever happens then, short of a restart, the last input is never taken. */
  lemma StarvedRun() returns (s: System)
    ensures Initial(Filled(10002, 0)) && Reaches(Filled(10002, 0), s)
    ensures s.paused && s.queue == [] && s.work.Idle? && s.position == [10001]
    ensures |s.logs| == 1 && |s.logs[0]| == 10002
    ensures forall es, s' :: Runs(s, es, s') && CrashRestart !in es ==> s'.position == [10001]
  {
    Fills(10002, 10001);
    s := Drains(Filled(10002, 10001));
    ReachesTransitive(Filled(10002, 0), Filled(10002, 10001), s);
    forall es, s' | Runs(s, es, s') && CrashRestart !in es ensures s'.position == [10001] {
      PausedUntilRestart(s, es, s');
    }
  }
}

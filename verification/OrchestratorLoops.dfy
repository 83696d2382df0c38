/** The two loops of `kafka_orchestrator.py` as written. Each method is proved to be a run of the
    transition system in `Orchestrator`, besides its own contract. */
module OrchestratorLoops {
  import opened Pipeline
  import opened Orchestrator

  /** For each attempt, how many of its three calls (send, send offsets, commit) answer before one
      raises a KafkaError. */
  type Faults = f: seq<nat> | |f| == MAX_ATTEMPTS witness [0, 0, 0, 0]

  /** The number of attempts that abort before one commits, or all four. */
  function Aborts(faults: seq<nat>): (n: nat)
    ensures n <= |faults|
    ensures forall k :: 0 <= k < n ==> faults[k] < 3
    ensures n < |faults| ==> 3 <= faults[n]
  {
    if faults == [] || 3 <= faults[0] then 0 else 1 + Aborts(faults[1..])
  }

  /** Seconds slept: `2 ** attempts` after each abort that is retried. */
  function Slept(aborts: nat): nat {
    if aborts == 0 then 0
    else Slept(aborts - 1) + (if aborts < MAX_ATTEMPTS then Power2(aborts) else 0)
  }

  function Power2(n: nat): nat {
    if n == 0 then 1 else 2 * Power2(n - 1)
  }

  lemma SleptBound(aborts: nat)
    requires aborts <= MAX_ATTEMPTS
    ensures Slept(aborts) == if aborts < MAX_ATTEMPTS then Power2(aborts + 1) - 2 else 14
    ensures Slept(aborts) <= 14
  {
    assert Power2(1) == 2 && Power2(2) == 4 && Power2(3) == 8 && Power2(4) == 16;
    assert Slept(0) == 0 && Slept(1) == 2 && Slept(2) == 6 && Slept(3) == 14 && Slept(4) == 14;
  }

  /** The system after one message has been worked on to its end. */
  function Processed(s: System, m: Msg, aborts: nat): System
    requires m.part < |s.logs| && m.part < |s.committed| && m.offset < |s.logs[m.part]|
  {
    if aborts < MAX_ATTEMPTS then
      s.(outputs := s.outputs + [Output(m, Process(s.logs[m.part][m.offset]))],
         committed := s.committed[m.part := m.offset + 1],
         lost := s.lost + Passed(s.abandoned, m.part, s.committed[m.part], m.offset),
         work := Idle, finished := s.finished + 1)
    else s.(work := Idle, abandoned := s.abandoned[m := MAX_ATTEMPTS], finished := s.finished + 1)
  }

  ghost predicate Reaches(s: System, s': System) {
    exists es :: Runs(s, es, s')
  }

  lemma {:induction false} RunsConcat(s: System, es: seq<Event>, s': System, fs: seq<Event>, s'': System)
    requires Runs(s, es, s') && Runs(s', fs, s'')
    ensures Runs(s, es + fs, s'')
    decreases |es|
  {
    if es == [] {
      assert es + fs == fs;
    } else {
      RunsConcat(Apply(s, es[0]), es[1..], s', fs, s'');
      assert (es + fs)[1..] == es[1..] + fs;
    }
  }

  lemma ReachesStep(s: System, e: Event, s': System)
    requires Enabled(s, e) && Reaches(Apply(s, e), s')
    ensures Reaches(s, s')
  {
    var es :| Runs(Apply(s, e), es, s');
    assert ([e] + es)[1..] == es;
    assert Runs(s, [e] + es, s');
  }

  lemma ReachesTransitive(s: System, s': System, s'': System)
    requires Reaches(s, s') && Reaches(s', s'')
    ensures Reaches(s, s'')
  {
    var es :| Runs(s, es, s');
    var fs :| Runs(s', fs, s'');
    RunsConcat(s, es, s', fs, s'');
  }

  /** An attempt in which every call answers. */
  lemma CommittedAttempt(s: System)
    requires s.work.Busy? && s.work.phase.Waiting? && s.work.attempts < MAX_ATTEMPTS
    requires s.work.msg.part < |s.logs| && s.work.msg.part < |s.committed|
             && s.work.msg.offset < |s.logs[s.work.msg.part]|
    ensures Reaches(s, Processed(s, s.work.msg, s.work.attempts))
  {
    var offsets := s.(work := s.work.(phase := OffsetsSent));
    var done := Processed(s, s.work.msg, s.work.attempts);
    assert Apply(offsets, Commit) == done && Runs(done, [], done);
    ReachesStep(offsets, Commit, done);
    ReachesStep(s.(work := s.work.(phase := Sent)), SendOffsets, done);
    ReachesStep(s.(work := s.work.(phase := Opened)), Send, done);
    ReachesStep(s, Begin, done);
  }

  /** An attempt in which `answered` calls answer and the next raises. */
  lemma AbortedAttempt(s: System, answered: nat)
    requires s.work.Busy? && s.work.phase.Waiting? && answered < 3
    ensures var begun := s.(work := s.work.(phase := Opened));
            Enabled(begun, KafkaFailure) && Reaches(s, Apply(begun, KafkaFailure))
  {
    var begun := s.(work := s.work.(phase := Opened));
    var sent := s.(work := s.work.(phase := Sent));
    var offsets := s.(work := s.work.(phase := OffsetsSent));
    var done := Apply(begun, KafkaFailure);
    assert Apply(sent, KafkaFailure) == done && Apply(offsets, KafkaFailure) == done && Runs(done, [], done);
    ReachesStep(offsets, KafkaFailure, done);
    ReachesStep(sent, KafkaFailure, done);
    ReachesStep(begun, KafkaFailure, done);
    if answered == 2 {
      ReachesStep(sent, SendOffsets, done);
    }
    if answered >= 1 {
      ReachesStep(begun, Send, done);
    }
    ReachesStep(s, Begin, done);
  }

  /** Every way the four attempts can go is a run of the system. */
  lemma {:induction false} AttemptsAreARun(s: System, faults: Faults)
    requires s.work.Busy? && s.work.phase.Waiting? && s.work.attempts <= Aborts(faults)
             && s.work.attempts < MAX_ATTEMPTS
    requires s.work.msg.part < |s.logs| && s.work.msg.part < |s.committed|
             && s.work.msg.offset < |s.logs[s.work.msg.part]|
    ensures Reaches(s, Processed(s, s.work.msg, Aborts(faults)))
    decreases MAX_ATTEMPTS - s.work.attempts
  {
    var k := s.work.attempts;
    if k == Aborts(faults) {
      CommittedAttempt(s);
    } else {
      AbortedAttempt(s, faults[k]);
      var next := Apply(s.(work := s.work.(phase := Opened)), KafkaFailure);
      if k + 1 < MAX_ATTEMPTS {
        AttemptsAreARun(next, faults);
        ReachesTransitive(s, next, Processed(s, s.work.msg, Aborts(faults)));
      } else {
        assert next == Processed(s, s.work.msg, Aborts(faults));
      }
    }
  }

  /** Some run of the system leads from an initial state to this one. */
  ghost predicate Reachable(s: System) {
    exists s0 :: Initial(s0) && Reaches(s0, s)
  }

  lemma ReachableInv(s: System)
    requires Reachable(s)
    ensures Inv(s)
  {
    var s0 :| Initial(s0) && Reaches(s0, s);
    var es :| Runs(s0, es, s);
    InitialInv(s0);
    RunKeepsInv(s0, es, s);
  }

  lemma ReachableOn(s: System, s': System)
    requires Reachable(s) && Reaches(s, s')
    ensures Reachable(s')
  {
    var s0 :| Initial(s0) && Reaches(s0, s);
    ReachesTransitive(s0, s, s');
  }

  lemma FetchIsARun(s: System, p: Part)
    requires Reachable(s) && Enabled(s, GetOne(p))
    ensures Reachable(Apply(s, GetOne(p))) && Reaches(s, Apply(s, GetOne(p)))
  {
    var s' := Apply(s, GetOne(p));
    assert Runs(s', [], s');
    ReachesStep(s, GetOne(p), s');
    ReachableOn(s, s');
  }

  lemma QueuedIsLogged(s: System)
    requires Reachable(s) && s.work.Idle? && s.queue != []
    ensures var m := s.queue[0]; m.part < |s.logs| && m.part < |s.committed| && m.offset < |s.logs[m.part]|
  {
    ReachableInv(s);
    assert InFlight(s)[0] == s.queue[0];
  }

  /** Taking the first queued message and working on it to its end. */
  lemma ProcessingIsARun(s: System, faults: Faults) returns (s': System)
    requires Reachable(s) && s.work.Idle? && s.queue != []
    ensures var m := s.queue[0];
            && m.part < |s.logs| && m.part < |s.committed| && m.offset < |s.logs[m.part]|
            && s' == Processed(s, m, Aborts(faults)).(queue := s.queue[1..])
    ensures Reachable(s') && Reaches(s, s')
  {
    QueuedIsLogged(s);
    var m, taken := s.queue[0], Apply(s, Take);
    AttemptsAreARun(taken, faults);
    s' := Processed(taken, m, Aborts(faults));
    ReachesStep(s, Take, s');
    ReachableOn(s, s');
  }

  class Service {
    var logs: seq<seq<Input>>
    var committed: seq<nat>
    var outputs: seq<Output>
    var position: seq<nat>
    var queue: seq<Msg>
    var paused: bool
    // The producer's transaction.
    var open: bool
    var staged: seq<Output>
    var stagedOffset: nat
    // History.
    const base: seq<nat>
    ghost var arrived: seq<Msg>
    ghost var finished: nat
    ghost var abandoned: map<Msg, nat>
    ghost var lost: map<Msg, nat>

    constructor (logs: seq<seq<Input>>, base: seq<nat>)
      requires |base| == |logs| && forall p :: 0 <= p < |logs| ==> base[p] <= |logs[p]|
      ensures Valid() && Initial(View())
    {
      this.logs, this.base, committed, position := logs, base, base, base;
      outputs, queue, paused, open, staged, stagedOffset := [], [], false, false, [], 0;
      arrived, finished, abandoned, lost := [], 0, map[], map[];
      new;
      assert Runs(View(), [], View()) && Reaches(View(), View());
    }

    ghost function View(): System
      reads this
    {
      System(logs, base, committed, outputs, position, queue, paused, Idle, arrived, finished, abandoned, lost)
    }

    ghost predicate Valid()
      reads this
    {
      Reachable(View()) && !open && |committed| == |position| == |logs|
    }

    /** One round of the consume loop, when the consumer has a message of this partition. */
    method ConsumeOne(p: Part)
      requires Valid() && !paused && p < |logs| && position[p] < |logs[p]|
      modifies this`queue, this`position, this`paused, this`arrived
      ensures Valid()
      ensures queue == old(queue) + [Msg(p, old(position[p]))] && position == old(position)[p := old(position[p]) + 1]
      ensures paused <==> |queue| > 10000
      ensures Reaches(old(View()), View())
    {
      ghost var before := View();
      var m := Msg(p, position[p]);
      queue, position := queue + [m], position[p := position[p] + 1];
      arrived := arrived + [m];
      if |queue| > PAUSE_ABOVE {
        paused := true;
      } else if |queue| < RESUME_BELOW {
        paused := false;
      }
      FetchIsARun(before, p);
      assert View() == Apply(before, GetOne(p));
    }

    /** `process_kafka_message`: up to four transactions, each with the output and its offset; the
        message is done at the first commit, and given up when the fourth aborts too. */
    method ProcessKafkaMessage(m: Msg, faults: Faults) returns (ok: bool, slept: nat)
      requires !open && m.part < |logs| && m.part < |committed| && m.offset < |logs[m.part]|
      modifies this
      ensures !open && unchanged(`logs, `position, `queue, `paused, `arrived, `finished, `abandoned, `lost)
      ensures ok <==> exists k :: 0 <= k < 4 && 3 <= faults[k]
      ensures ok ==> outputs == old(outputs) + [Output(m, Process(logs[m.part][m.offset]))]
      ensures ok ==> |outputs| == |old(outputs)| + 1 && outputs[|old(outputs)|] ==
                     match logs[m.part][m.offset] {
                       case NotJson(raw) => Output(m, Record("rau_events_dlq", raw, "deserialization_error"))
                       case Object(bad, body) =>
                         if bad then Output(m, Record("rau_events_dlq", "{\"error\": \"bad\"}", "bad_event"))
                         else Output(m, Record("alerts", body, ""))
                     }
      ensures ok ==> committed == old(committed)[m.part := m.offset + 1]
      ensures !ok ==> outputs == old(outputs) && committed == old(committed)
      ensures ok <==> Aborts(faults) < MAX_ATTEMPTS
      ensures slept == Slept(Aborts(faults)) == [0, 2, 6, 14, 14][Aborts(faults)]
    {
      var attempts := 0;
      slept := 0;
      while true
        invariant 0 <= attempts <= Aborts(faults) && attempts < MAX_ATTEMPTS && !open
        invariant outputs == old(outputs) && committed == old(committed)
        invariant slept == Slept(attempts)
        modifies this`outputs, this`committed, this`open, this`staged, this`stagedOffset
        decreases MAX_ATTEMPTS - attempts
      {
        open, staged := true, [];
        var answered := faults[attempts];
        if answered >= 1 {
          staged := [Output(m, Process(logs[m.part][m.offset]))];
        }
        if answered >= 2 {
          stagedOffset := m.offset + 1;
        }
        if answered >= 3 {
          outputs, committed := outputs + staged, committed[m.part := stagedOffset];
          open, staged := false, [];
          SleptBound(attempts);
          return true, slept;
        }
        open, staged := false, [];
        attempts := attempts + 1;
        if attempts > 3 {
          SleptBound(attempts);
          return false, slept;
        }
        slept := slept + Power2(attempts);
      }
    }

    /** The first queued message, from `get` to `task_done`. */
    method WorkOnNext(faults: Faults)
      requires !open && queue != []
      requires queue[0].part < |logs| && queue[0].part < |committed| && queue[0].offset < |logs[queue[0].part]|
      modifies this
      ensures !open && |committed| == |old(committed)|
      ensures View() == Processed(old(View()), old(queue[0]), Aborts(faults)).(queue := old(queue)[1..])
    {
      var m := queue[0];
      queue := queue[1..];
      ghost var lo := committed[m.part];
      var ok, _ := ProcessKafkaMessage(m, faults);
      if ok {
        lost := lost + Passed(abandoned, m.part, lo, m.offset);
      } else {
        abandoned := abandoned[m := MAX_ATTEMPTS];
      }
      finished := finished + 1;
    }

    /** One round of the process loop: whatever becomes of the message, it is marked done. */
    method ProcessOne(faults: Faults)
      requires Valid() && queue != []
      modifies this
      ensures Valid()
      ensures queue == old(queue)[1..] && finished == old(finished) + 1
      ensures logs == old(logs) && position == old(position) && paused == old(paused) && arrived == old(arrived)
      ensures Aborts(faults) < MAX_ATTEMPTS ==>
                var m := old(queue[0]);
                && m.part < |logs| && m.offset < |logs[m.part]| && m.part < |old(committed)|
                && outputs == old(outputs) + [Output(m, Process(logs[m.part][m.offset]))]
                && committed == old(committed)[m.part := m.offset + 1]
      ensures Aborts(faults) == MAX_ATTEMPTS ==> outputs == old(outputs) && committed == old(committed)
      ensures Reaches(old(View()), View())
    {
      ghost var after := ProcessingIsARun(View(), faults);
      WorkOnNext(faults);
      assert View() == after;
    }
  }
}

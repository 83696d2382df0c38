/** `kafkaEmitter.ts`: one transaction per attempt, and the audit of a function's outcome. A commit
    that throws commits nothing. */
module AuditEmitter {
  import opened Backoff
  import Ledger

  datatype Status = Success | Failure | Skipped

  datatype ActionEvent = ActionEvent(runId: string, playbookId: string, stepId: string, action: string,
                                     status: Status, timestamp: string)

  datatype Committed = Committed(topic: string, key: string, event: ActionEvent)

  /** The cached promise of `producer.connect()`: absent, resolved, or rejected for good. */
  datatype Connection = NotTried | Up | Down

  /** Where the transaction of one attempt throws, if it does. */
  datatype Attempt = BeginThrows | SendThrows | CommitThrows | Commits

  type Attempts = nat -> Attempt

  /** How `withAudit` ends: normally, or with the error of the function, of the success event, or of the
      failure event (which then replaces the other). */
  datatype Ending = Returned | FunctionError | SuccessEventError | FailureEventError

  function Fails(attempts: Attempts): nat -> bool {
    (i: nat) => attempts(i) != Commits
  }

  /** The transactions that the first `calls` attempts began. */
  function Begun(attempts: Attempts, calls: nat): (n: nat)
    ensures n <= calls
  {
    if calls == 0 then 0
    else Begun(attempts, calls - 1) + (if attempts(calls - 1) == BeginThrows then 0 else 1)
  }

  // ----- The connection over the life of the process -------------------------------------------------

  /** What touches the connection: an emit, with how a `connect` would end, and a shutdown, with whether
      the disconnect answers. */
  datatype Call = Emits(connects: bool) | ShutsDown(disconnects: bool)

  function After(c: Connection, call: Call): Connection {
    match call
    case Emits(connects) => if c.NotTried? then (if connects then Up else Down) else c
    case ShutsDown(disconnects) => if disconnects then NotTried else c
  }

  function AfterAll(calls: seq<Call>): Connection {
    if calls == [] then NotTried else After(AfterAll(calls[..|calls| - 1]), calls[|calls| - 1])
  }

  /** Call `k` is the first emit since the start or the last shutdown that disconnected. */
  predicate Decides(calls: seq<Call>, k: nat) {
    && k < |calls| && calls[k].Emits?
    && (forall j :: k < j < |calls| ==> calls[j] != ShutsDown(true))
    && (forall j :: 0 <= j < k && calls[j].Emits? ==> exists m :: j < m < k && calls[m] == ShutsDown(true))
  }

  lemma DecidesLast(calls: seq<Call>, k: nat)
    requires calls != [] && k < |calls| - 1
    ensures Decides(calls, k) <==> Decides(calls[..|calls| - 1], k) && calls[|calls| - 1] != ShutsDown(true)
  {
    var n := |calls| - 1;
    assert forall m :: 0 <= m < n ==> calls[..n][m] == calls[m];
  }

  /** Some emit decides, and this is how its connect ended. */
  ghost predicate Decided(calls: seq<Call>, connected: bool) {
    exists k: nat :: Decides(calls, k) && calls[k].connects == connected
  }

  /** A call other than such a shutdown leaves the decision as it was, or takes it. */
  lemma DecidedNext(calls: seq<Call>, connected: bool)
    requires calls != []
    ensures var n := |calls| - 1;
            Decided(calls, connected) <==>
              || (Decided(calls[..n], connected) && calls[n] != ShutsDown(true))
              || (Decides(calls, n) && calls[n].connects == connected)
  {
    var n := |calls| - 1;
    if Decided(calls, connected) {
      var k: nat :| Decides(calls, k) && calls[k].connects == connected;
      if k < n {
        DecidesLast(calls, k);
        assert calls[..n][k] == calls[k];
      }
    }
    if Decided(calls[..n], connected) {
      var k: nat :| Decides(calls[..n], k) && calls[..n][k].connects == connected;
      DecidesLast(calls, k);
      assert calls[..n][k] == calls[k];
    }
  }

  /** An emit takes the decision exactly when no connection was tried before it. */
  lemma LastDecidesIff(calls: seq<Call>)
    requires calls != [] && calls[|calls| - 1].Emits?
    requires AfterAll(calls[..|calls| - 1]).NotTried? <==>
             !Decided(calls[..|calls| - 1], true) && !Decided(calls[..|calls| - 1], false)
    ensures Decides(calls, |calls| - 1) <==> AfterAll(calls[..|calls| - 1]).NotTried?
  {
    var n := |calls| - 1;
    var before := calls[..n];
    if AfterAll(before).NotTried? {
      UntriedDecides(before);
      forall j | 0 <= j < n && calls[j].Emits? ensures exists m :: j < m < n && calls[m] == ShutsDown(true) {
        assert before[j] == calls[j];
        var m :| j < m < n && before[m] == ShutsDown(true);
        assert calls[m] == ShutsDown(true);
      }
    } else {
      var b := Decided(before, true);
      var k: nat :| Decides(before, k) && before[k].connects == b;
      assert calls[k] == before[k] && forall m :: k < m < n ==> calls[m] == before[m];
    }
  }

  /** The first emit after the start, or after a shutdown that disconnected, decides for all that follow:
      if its connect failed, every later emit fails too, until another shutdown. */
  lemma {:induction false} FirstConnectDecides(calls: seq<Call>)
    ensures AfterAll(calls).Up? <==> Decided(calls, true)
    ensures AfterAll(calls).Down? <==> Decided(calls, false)
    decreases |calls|
  {
    if calls == [] {
    } else {
      FirstConnectDecides(calls[..|calls| - 1]);
      DecidedNext(calls, true);
      DecidedNext(calls, false);
      if calls[|calls| - 1].Emits? {
        LastDecidesIff(calls);
      }
    }
  }

  /** No connection was tried exactly when a shutdown followed every emit. */
  lemma {:induction false} UntriedDecides(calls: seq<Call>)
    requires AfterAll(calls).NotTried?
    ensures forall j :: 0 <= j < |calls| && calls[j].Emits? ==>
              exists m :: j < m < |calls| && calls[m] == ShutsDown(true)
    decreases |calls|
  {
    if calls == [] {
    } else {
      var n := |calls| - 1;
      if calls[n] != ShutsDown(true) {
        UntriedDecides(calls[..n]);
        forall j | 0 <= j < |calls| && calls[j].Emits?
          ensures exists m :: j < m < |calls| && calls[m] == ShutsDown(true)
        {
          var m :| j < m < n && calls[..n][m] == ShutsDown(true);
          assert calls[m] == ShutsDown(true);
        }
      }
    }
  }

  /** `computeKey` */
  function KeyOf(hash: string -> string, event: ActionEvent): string {
    hash(event.runId + "|" + event.stepId + "|" + event.timestamp)
  }

  /** The message key tells the steps of all runs apart, as long as no id holds the separator: two events
      share a key exactly when they are of the same step of the same run at the same time. */
  lemma SameKeyIff(hash: string -> string, a: ActionEvent, b: ActionEvent)
    requires Ledger.Injective(hash)
    requires Ledger.SeparatorFree(a.runId) && Ledger.SeparatorFree(a.stepId)
    requires Ledger.SeparatorFree(b.runId) && Ledger.SeparatorFree(b.stepId)
    ensures KeyOf(hash, a) == KeyOf(hash, b) <==>
            a.runId == b.runId && a.stepId == b.stepId && a.timestamp == b.timestamp
  {
    Regroup(a.runId, a.stepId, a.timestamp);
    Regroup(b.runId, b.stepId, b.timestamp);
    if KeyOf(hash, a) == KeyOf(hash, b) {
      Ledger.JoinInjective(a.runId, a.stepId + "|" + a.timestamp, b.runId, b.stepId + "|" + b.timestamp);
      Ledger.JoinInjective(a.stepId, a.timestamp, b.stepId, b.timestamp);
    }
  }

  lemma Regroup(r: string, s: string, t: string)
    ensures r + "|" + s + "|" + t == r + "|" + (s + "|" + t)
  {}

  class Emitter {
    const hash: string -> string
    const day: string -> string
    var connection: Connection
    var committed: seq<Committed>
    // The transaction of the current attempt, and what it has sent.
    var ongoing: bool
    var staged: seq<Committed>
    var begun: nat
    var functionCalls: nat

    constructor (hash: string -> string, day: string -> string)
      ensures this.hash == hash && this.day == day && !ongoing
      ensures connection == AfterAll([]) && committed == [] && begun == 0 && functionCalls == 0
    {
      this.hash, this.day := hash, day;
      connection, committed, ongoing, staged, begun, functionCalls := NotTried, [], false, [], 0, 0;
    }

    function RecordOf(event: ActionEvent): Committed {
      Committed("soar_action_" + day(event.timestamp), KeyOf(hash, event), event)
    }

    /** One attempt: its own transaction, which sends the record and commits, or is aborted. */
    method Transact(event: ActionEvent, attempt: Attempt) returns (ok: bool)
      requires !ongoing
      modifies this
      ensures unchanged(`connection, `functionCalls) && !ongoing && (ok <==> attempt == Commits)
      ensures ok ==> committed == old(committed) + [Committed("soar_action_" + day(event.timestamp),
                     hash(event.runId + "|" + event.stepId + "|" + event.timestamp), event)]
      ensures !ok ==> committed == old(committed)
      ensures begun == old(begun) + (if attempt == BeginThrows then 0 else 1)
    {
      if attempt == BeginThrows { return false; }
      ongoing, staged, begun := true, [], begun + 1;
      if attempt != SendThrows {
        staged := staged + [RecordOf(event)];
        if attempt != CommitThrows {
          committed, ongoing, staged := committed + staged, false, [];
          return true;
        }
      }
      ongoing, staged := false, [];
      ok := false;
    }

    /** The loop of `exponentialBackoff` around one transaction per attempt: at most one of the six
        commits, and the aborted ones leave nothing. */
    method Retry(event: ActionEvent, attempts: Attempts, o: Opts) returns (ok: bool, delays: seq<real>)
      requires !ongoing && o.retries == 5
      modifies this
      ensures !ongoing && unchanged(`connection, `functionCalls)
      ensures ok <==> exists i: nat :: i < 6 && attempts(i) == Commits
      ensures if ok then committed == old(committed) + [Committed("soar_action_" + day(event.timestamp),
                           hash(event.runId + "|" + event.stepId + "|" + event.timestamp), event)]
              else committed == old(committed)
      ensures |delays| == if ok then FirstSuccess(Fails(attempts), 6) else 5
      ensures delays == Delays(o, |delays|)
      ensures begun == old(begun) + Begun(attempts, |delays| + 1)
    {
      var attempt := 0;
      delays := [];
      while true
        invariant 0 <= attempt < 6 && !ongoing
        invariant forall i: nat :: i < attempt ==> attempts(i) != Commits
        invariant committed == old(committed) && begun == old(begun) + Begun(attempts, attempt)
        invariant |delays| == attempt && delays == Delays(o, attempt)
        invariant unchanged(`connection, `functionCalls)
        decreases 6 - attempt
      {
        var done := Transact(event, attempts(attempt));
        if done {
          FirstIs(Fails(attempts), 6, attempt);
          return true, delays;
        }
        DelaysSnoc(o, attempt);
        attempt := attempt + 1;
        if attempt > o.retries {
          return false, delays;
        }
        delays := delays + [Delay(o, attempt)];
      }
    }

    /** The loop with the emitter's own settings, and how long it waited. */
    method RetryWithDefaults(event: ActionEvent, attempts: Attempts) returns (ok: bool, waited: real)
      requires !ongoing
      modifies this
      ensures !ongoing && unchanged(`connection, `functionCalls) && waited <= 4474.0
      ensures ok <==> exists i: nat :: i < 6 && attempts(i) == Commits
      ensures if ok then committed == old(committed) + [Committed("soar_action_" + day(event.timestamp),
                           hash(event.runId + "|" + event.stepId + "|" + event.timestamp), event)]
              else committed == old(committed)
      ensures old(begun) <= begun <= old(begun) + 6
    {
      var delays;
      ok, delays := Retry(event, attempts, DEFAULTS);
      EmitterDelays(delays);
      waited := Sum(delays);
    }

    /** `emitAction`, and how long it waited. */
    method EmitAction(event: ActionEvent, connects: bool, attempts: Attempts) returns (ok: bool, waited: real)
      requires !ongoing
      modifies this
      ensures !ongoing && functionCalls == old(functionCalls)
      ensures connection == After(old(connection), Emits(connects))
      ensures connection.Up? <==> old(connection).Up? || (old(connection).NotTried? && connects)
      ensures ok <==> connection.Up? && exists i: nat :: i < 6 && attempts(i) == Commits
      ensures if ok then committed == old(committed) + [Committed("soar_action_" + day(event.timestamp),
                           hash(event.runId + "|" + event.stepId + "|" + event.timestamp), event)]
              else committed == old(committed)
      ensures old(begun) <= begun <= old(begun) + (if connection.Up? then 6 else 0)
      ensures waited <= 4474.0
    {
      if connection.NotTried? {
        connection := if connects then Up else Down;
      }
      if connection.Down? {
        return false, 0.0;
      }
      ok, waited := RetryWithDefaults(event, attempts);
    }

    /** The function runs once. The call returns normally exactly when the function did and a success
        event was committed, once; when it throws, no success event was committed and at most one failure
        event. At most twelve transactions are begun. */
    method WithAudit(base: ActionEvent, functionReturns: bool, connects: bool, successAttempts: Attempts,
                     failureAttempts: Attempts, successTime: string, failureTime: string)
      returns (ending: Ending)
      requires !ongoing
      modifies this
      ensures !ongoing && functionCalls == old(functionCalls) + 1
      ensures ending.Returned? <==>
                functionReturns && connection.Up? && exists i: nat :: i < 6 && successAttempts(i) == Commits
      ensures ending.Returned? ==>
                committed == old(committed) + [Committed("soar_action_" + day(successTime),
                               hash(base.runId + "|" + base.stepId + "|" + successTime),
                               base.(status := Success, timestamp := successTime))]
      ensures !ending.Returned? && connection.Up? && (exists i: nat :: i < 6 && failureAttempts(i) == Commits) ==>
                && committed == old(committed) + [Committed("soar_action_" + day(failureTime),
                                  hash(base.runId + "|" + base.stepId + "|" + failureTime),
                                  base.(status := Failure, timestamp := failureTime))]
                && ending == if functionReturns then SuccessEventError else FunctionError
      ensures !ending.Returned? && !(connection.Up? && exists i: nat :: i < 6 && failureAttempts(i) == Commits) ==>
                committed == old(committed) && ending == FailureEventError
      ensures old(committed) <= committed && |committed| <= |old(committed)| + 1
      ensures ending.Returned? <==>
                |committed| > |old(committed)| && committed[|old(committed)|].event.status == Success
      ensures old(begun) <= begun <= old(begun) + 12
      ensures connection == After(old(connection), Emits(connects))
    {
      functionCalls := functionCalls + 1;
      if functionReturns {
        var emitted, _ := EmitAction(base.(status := Success, timestamp := successTime), connects, successAttempts);
        if emitted {
          return Returned;
        }
      }
      var audited, _ := EmitAction(base.(status := Failure, timestamp := failureTime), connects, failureAttempts);
      if !audited {
        return FailureEventError;
      }
      ending := if functionReturns then SuccessEventError else FunctionError;
    }

    /** The cached connection is dropped once the producer has disconnected. */
    method Shutdown(disconnects: bool)
      modifies this`connection
      ensures connection == After(old(connection), ShutsDown(disconnects))
      ensures connection == if disconnects then NotTried else old(connection)
    {
      if !connection.NotTried? && disconnects {
        connection := NotTried;
      }
    }
  }
}

/** `kafka_orchestrator.py` as a transition system: the consume loop and the process loop interleaved,
    each Kafka call a step, with aborts, retries and crash-restarts at any step. Output and offset are
    committed in one transaction. */
module Orchestrator {
  import opened Pipeline

  type Part = nat

  datatype Msg = Msg(part: Part, offset: nat)

  /** A committed record of an output topic, with the input it came from. */
  datatype Output = Output(source: Msg, record: Record)

  /** How far the open transaction of the current attempt has come. */
  datatype Phase = Waiting | Opened | Sent | OffsetsSent

  /** The message in processing, and how many of its attempts were aborted. */
  datatype Work = Idle | Busy(msg: Msg, attempts: nat, phase: Phase)

  const MAX_ATTEMPTS: nat := 4
  const PAUSE_ABOVE: nat := 10000
  const RESUME_BELOW: nat := 1000

  /** `base` is where the group started. `arrived` and `finished` are history of the current session:
      the messages taken from the consumer, and how many `task_done` calls there were. `abandoned` is
      history of the current session too: each message given up, with its number of aborted attempts.
      `lost` holds the abandoned messages that a later commit has passed. */
  datatype System = System(
    logs: seq<seq<Input>>,
    base: seq<nat>,
    committed: seq<nat>,
    outputs: seq<Output>,
    position: seq<nat>,
    queue: seq<Msg>,
    paused: bool,
    work: Work,
    arrived: seq<Msg>,
    finished: nat,
    abandoned: map<Msg, nat>,
    lost: map<Msg, nat>)

  datatype Event =
    | Append(part: Part, input: Input)
    | GetOne(part: Part)
    | Take
    | Begin
    | Send
    | SendOffsets
    | Commit
    | KafkaFailure
    | CrashRestart

  predicate Enabled(s: System, e: Event) {
    match e
    case Append(p, _) => p < |s.logs|
    case GetOne(p) =>
      // A paused consumer delivers nothing.
      !s.paused && p < |s.logs| && p < |s.position| && s.position[p] < |s.logs[p]|
    case Take => s.work.Idle? && s.queue != []
    case Begin => s.work.Busy? && s.work.phase.Waiting?
    case Send => s.work.Busy? && s.work.phase.Opened?
    case SendOffsets => s.work.Busy? && s.work.phase.Sent?
    case Commit =>
      && s.work.Busy? && s.work.phase.OffsetsSent?
      && s.work.msg.part < |s.logs| && s.work.msg.part < |s.committed|
      && s.work.msg.offset < |s.logs[s.work.msg.part]|
    case KafkaFailure => s.work.Busy? && !s.work.phase.Waiting?
    case CrashRestart => true
  }

  /** The pause decision that follows every put. */
  function PauseAfter(paused: bool, size: nat): bool {
    if size > PAUSE_ABOVE then true
    else if size < RESUME_BELOW then false
    else paused
  }

  function Apply(s: System, e: Event): System
    requires Enabled(s, e)
  {
    match e
    case Append(p, input) => s.(logs := s.logs[p := s.logs[p] + [input]])
    case GetOne(p) =>
      var m := Msg(p, s.position[p]);
      s.(queue := s.queue + [m], arrived := s.arrived + [m],
         position := s.position[p := s.position[p] + 1],
         paused := PauseAfter(s.paused, |s.queue| + 1))
    case Take => s.(queue := s.queue[1..], work := Busy(s.queue[0], 0, Waiting))
    case Begin => s.(work := s.work.(phase := Opened))
    case Send => s.(work := s.work.(phase := Sent))
    case SendOffsets => s.(work := s.work.(phase := OffsetsSent))
    case Commit =>
      var m := s.work.msg;
      s.(outputs := s.outputs + [Output(m, Process(s.logs[m.part][m.offset]))],
         committed := s.committed[m.part := m.offset + 1],
         lost := s.lost + Passed(s.abandoned, m.part, s.committed[m.part], m.offset),
         work := Idle, finished := s.finished + 1)
    case KafkaFailure =>
      var attempts := s.work.attempts + 1;
      if attempts < MAX_ATTEMPTS then s.(work := s.work.(attempts := attempts, phase := Waiting))
      else s.(work := Idle, abandoned := s.abandoned[s.work.msg := attempts], finished := s.finished + 1)
    case CrashRestart =>
      s.(queue := [], work := Idle, position := s.committed, paused := false,
         arrived := [], finished := 0, abandoned := map[])
  }

  /** The abandoned messages of a partition from `lo` up to, but not including, `hi`. */
  function Passed(abandoned: map<Msg, nat>, part: Part, lo: nat, hi: nat): map<Msg, nat> {
    map m | m in abandoned && m.part == part && lo <= m.offset < hi :: abandoned[m]
  }

  predicate Runs(s: System, es: seq<Event>, s': System)
    decreases |es|
  {
    if es == [] then s' == s
    else Enabled(s, es[0]) && Runs(Apply(s, es[0]), es[1..], s')
  }

  ghost predicate Initial(s: System) {
    && |s.base| == |s.logs| && s.committed == s.base && s.position == s.base
    && (forall p :: 0 <= p < |s.logs| ==> s.base[p] <= |s.logs[p]|)
    && s.outputs == [] && s.queue == [] && !s.paused && s.work == Idle
    && s.arrived == [] && s.finished == 0 && s.abandoned == map[] && s.lost == map[]
  }

  // ----- The reference: the in-order image of the inputs -----------------------------------------

  /** The records of one partition, in the order they were committed. */
  function Of(outputs: seq<Output>, part: Part): seq<Output> {
    if outputs == [] then []
    else
      var last := outputs[|outputs| - 1];
      Of(outputs[..|outputs| - 1], part) + (if last.source.part == part then [last] else [])
  }

  /** The images of the inputs from `lo` up to `hi`, without the lost ones. */
  function Image(log: seq<Input>, part: Part, lo: nat, hi: nat, lost: map<Msg, nat>): seq<Output>
    requires hi <= |log|
    decreases hi
  {
    if hi <= lo then []
    else
      var m := Msg(part, hi - 1);
      Image(log, part, lo, hi - 1, lost) + (if m in lost then [] else [Output(m, Process(log[hi - 1]))])
  }

  // ----- Invariant -------------------------------------------------------------------------------

  function InFlight(s: System): seq<Msg> {
    (if s.work.Busy? then [s.work.msg] else []) + s.queue
  }

  ghost predicate ShapeOk(s: System) {
    && |s.base| == |s.committed| == |s.position| == |s.logs|
    && (forall p :: 0 <= p < |s.logs| ==> s.base[p] <= s.committed[p] <= s.position[p] <= |s.logs[p]|)
  }

  /** In flight, each partition's messages stand in offset order, between its committed offset and the
      consumer's position. */
  ghost predicate Ordered(flight: seq<Msg>, committed: seq<nat>, position: seq<nat>)
    requires |committed| == |position|
  {
    && (forall i :: 0 <= i < |flight| ==>
          flight[i].part < |committed| && committed[flight[i].part] <= flight[i].offset < position[flight[i].part])
    && (forall i, j :: 0 <= i < j < |flight| && flight[i].part == flight[j].part ==>
         flight[i].offset < flight[j].offset)
  }

  /** Everything fetched but not committed is in flight or was abandoned after four aborted attempts,
      and the abandoned come before what is in flight. */
  ghost predicate Accounted(flight: seq<Msg>, abandoned: map<Msg, nat>, committed: seq<nat>, position: seq<nat>)
    requires |committed| == |position|
  {
    && (forall p: nat, o: nat :: p < |committed| && committed[p] <= o < position[p] ==>
          Msg(p, o) in abandoned || Msg(p, o) in flight)
    && (forall m :: m in abandoned ==>
         abandoned[m] == MAX_ATTEMPTS && m.part < |committed| && m.offset < position[m.part])
    && (forall m, i :: m in abandoned && 0 <= i < |flight| && flight[i].part == m.part ==> m.offset < flight[i].offset)
  }

  ghost predicate FlightOk(s: System)
    requires ShapeOk(s)
  {
    && Ordered(InFlight(s), s.committed, s.position)
    && Accounted(InFlight(s), s.abandoned, s.committed, s.position)
  }

  ghost predicate LostOk(s: System)
    requires ShapeOk(s)
  {
    forall m :: m in s.lost ==> m.part < |s.logs| && m.offset < s.committed[m.part] && s.lost[m] == MAX_ATTEMPTS
  }

  ghost predicate OutputsOk(s: System)
    requires ShapeOk(s)
  {
    forall p :: 0 <= p < |s.logs| ==> Of(s.outputs, p) == Image(s.logs[p], p, s.base[p], s.committed[p], s.lost)
  }

  /** The queue bound, and the accounting of what was taken from the consumer. */
  ghost predicate QueueOk(s: System) {
    && |s.queue| <= PAUSE_ABOVE + 1
    && (|s.queue| > PAUSE_ABOVE ==> s.paused)
    && s.finished <= |s.arrived| && s.arrived[s.finished..] == InFlight(s)
    && (s.work.Busy? ==> s.work.attempts < MAX_ATTEMPTS)
  }

  ghost predicate Inv(s: System) {
    ShapeOk(s) && FlightOk(s) && LostOk(s) && OutputsOk(s) && QueueOk(s)
  }

  // ----- Every step keeps the invariant ------------------------------------------------------------

  /** The message in processing leaves flight with this step. */
  predicate Leaves(s: System, e: Event) {
    e.Commit? || (e.KafkaFailure? && s.work.Busy? && s.work.attempts + 1 >= MAX_ATTEMPTS)
  }

  lemma InFlightAfter(s: System, e: Event)
    requires Enabled(s, e)
    ensures InFlight(Apply(s, e)) ==
            if e.CrashRestart? then []
            else if e.GetOne? then InFlight(s) + [Msg(e.part, s.position[e.part])]
            else if Leaves(s, e) then InFlight(s)[1..]
            else InFlight(s)
  {}

  lemma FinishOne(arrived: seq<Msg>, finished: nat)
    requires finished < |arrived|
    ensures arrived[finished..][1..] == arrived[finished + 1..]
  {}

  lemma FetchOne(arrived: seq<Msg>, finished: nat, m: Msg)
    requires finished <= |arrived|
    ensures (arrived + [m])[finished..] == arrived[finished..] + [m]
  {}

  /** The accounting of what was taken from the consumer, step by step. */
  lemma ArrivedKept(s: System, e: Event)
    requires Enabled(s, e) && s.finished <= |s.arrived| && s.arrived[s.finished..] == InFlight(s)
    ensures var s' := Apply(s, e); s'.finished <= |s'.arrived| && s'.arrived[s'.finished..] == InFlight(s')
  {
    InFlightAfter(s, e);
    if e.GetOne? {
      FetchOne(s.arrived, s.finished, Msg(e.part, s.position[e.part]));
    } else if Leaves(s, e) {
      FinishOne(s.arrived, s.finished);
    }
  }

  lemma QueueKept(s: System, e: Event)
    requires QueueOk(s) && Enabled(s, e)
    ensures QueueOk(Apply(s, e))
  {
    ArrivedKept(s, e);
  }

  lemma FetchedInOrder(flight: seq<Msg>, abandoned: map<Msg, nat>, committed: seq<nat>, position: seq<nat>, p: Part)
    requires |committed| == |position| && p < |committed| && committed[p] <= position[p]
    requires Ordered(flight, committed, position) && Accounted(flight, abandoned, committed, position)
    ensures var flight', position' := flight + [Msg(p, position[p])], position[p := position[p] + 1];
            Ordered(flight', committed, position') && Accounted(flight', abandoned, committed, position')
  {
    var flight', position' := flight + [Msg(p, position[p])], position[p := position[p] + 1];
    assert flight'[|flight|] == Msg(p, position[p]);
    forall q: nat, o: nat | q < |committed| && committed[q] <= o < position'[q]
      ensures Msg(q, o) in abandoned || Msg(q, o) in flight'
    {
      assert Msg(q, o) in flight ==> Msg(q, o) in flight';
    }
  }

  /** The first message in flight is the first of its partition, so what lies between the committed
      offset and it was abandoned. */
  lemma FirstPasses(flight: seq<Msg>, abandoned: map<Msg, nat>, committed: seq<nat>, position: seq<nat>)
    requires |committed| == |position| && flight != []
    requires Ordered(flight, committed, position) && Accounted(flight, abandoned, committed, position)
    ensures forall o: nat :: committed[flight[0].part] <= o < flight[0].offset ==> Msg(flight[0].part, o) in abandoned
    ensures flight[0] !in abandoned
  {
    forall o: nat | committed[flight[0].part] <= o < flight[0].offset ensures Msg(flight[0].part, o) in abandoned {
      assert forall i :: 0 < i < |flight| && flight[i].part == flight[0].part ==> o < flight[i].offset;
    }
  }

  lemma RestOrdered(flight: seq<Msg>, committed: seq<nat>, position: seq<nat>)
    requires |committed| == |position| && flight != [] && Ordered(flight, committed, position)
    ensures Ordered(flight[1..], committed, position)
    ensures Ordered(flight[1..], committed[flight[0].part := flight[0].offset + 1], position)
  {
    var rest := flight[1..];
    assert forall i :: 0 <= i < |rest| ==> rest[i] == flight[i + 1];
  }

  lemma InRest(flight: seq<Msg>, m: Msg)
    requires flight != []
    ensures m in flight <==> m == flight[0] || m in flight[1..]
  {
    assert flight == [flight[0]] + flight[1..];
  }

  lemma CommittedInOrder(flight: seq<Msg>, abandoned: map<Msg, nat>, committed: seq<nat>, position: seq<nat>)
    requires |committed| == |position| && flight != []
    requires Ordered(flight, committed, position) && Accounted(flight, abandoned, committed, position)
    ensures var committed' := committed[flight[0].part := flight[0].offset + 1];
            Ordered(flight[1..], committed', position) && Accounted(flight[1..], abandoned, committed', position)
  {
    RestOrdered(flight, committed, position);
    forall m { InRest(flight, m); }
  }

  lemma AbandonedInOrder(flight: seq<Msg>, abandoned: map<Msg, nat>, committed: seq<nat>, position: seq<nat>)
    requires |committed| == |position| && flight != []
    requires Ordered(flight, committed, position) && Accounted(flight, abandoned, committed, position)
    ensures Ordered(flight[1..], committed, position)
    ensures Accounted(flight[1..], abandoned[flight[0] := MAX_ATTEMPTS], committed, position)
  {
    RestOrdered(flight, committed, position);
    forall m { InRest(flight, m); }
  }

  lemma ShapeKept(s: System, e: Event)
    requires ShapeOk(s) && FlightOk(s) && Enabled(s, e)
    ensures ShapeOk(Apply(s, e))
  {
    if e.Commit? {
      ShapeCommitted(s, Apply(s, e), s.work.msg);
    }
  }

  /** A commit moves one committed offset, to behind the first message in flight. */
  lemma ShapeCommitted(s: System, s': System, m: Msg)
    requires ShapeOk(s) && FlightOk(s) && InFlight(s) != [] && InFlight(s)[0] == m && m.part < |s.committed|
    requires s'.base == s.base && s'.logs == s.logs && s'.position == s.position
    requires s'.committed == s.committed[m.part := m.offset + 1]
    ensures ShapeOk(s')
  {}

  lemma RestartOk(committed: seq<nat>)
    ensures Ordered([], committed, committed) && Accounted([], map[], committed, committed)
  {}

  lemma GetOneStep(s: System, p: Part)
    requires Enabled(s, GetOne(p))
    ensures var s' := Apply(s, GetOne(p));
            && InFlight(s') == InFlight(s) + [Msg(p, s.position[p])]
            && s'.position == s.position[p := s.position[p] + 1]
            && s'.committed == s.committed && s'.abandoned == s.abandoned
  {
    InFlightAfter(s, GetOne(p));
  }

  lemma GetOneKept(s: System, s': System, p: Part)
    requires ShapeOk(s) && FlightOk(s) && ShapeOk(s') && p < |s.committed|
    requires InFlight(s') == InFlight(s) + [Msg(p, s.position[p])]
    requires s'.position == s.position[p := s.position[p] + 1]
    requires s'.committed == s.committed && s'.abandoned == s.abandoned
    ensures FlightOk(s')
  {
    FetchedInOrder(InFlight(s), s.abandoned, s.committed, s.position, p);
  }

  lemma CommitStep(s: System)
    requires Enabled(s, Commit)
    ensures var s', m := Apply(s, Commit), s.work.msg;
            && InFlight(s) == [m] + s.queue && InFlight(s') == s.queue == InFlight(s)[1..]
            && s'.committed == s.committed[m.part := m.offset + 1]
            && s'.position == s.position && s'.abandoned == s.abandoned
  {}

  lemma CommitKept(s: System, s': System)
    requires ShapeOk(s) && FlightOk(s) && ShapeOk(s') && InFlight(s) != []
    requires InFlight(s') == InFlight(s)[1..] && s'.position == s.position && s'.abandoned == s.abandoned
    requires var m := InFlight(s)[0];
             m.part < |s.committed| && s'.committed == s.committed[m.part := m.offset + 1]
    ensures FlightOk(s')
  {
    CommittedInOrder(InFlight(s), s.abandoned, s.committed, s.position);
  }

  lemma GiveUpStep(s: System)
    requires Enabled(s, KafkaFailure) && s.work.attempts + 1 == MAX_ATTEMPTS
    ensures var s' := Apply(s, KafkaFailure);
            && InFlight(s) != [] && InFlight(s') == InFlight(s)[1..]
            && s'.abandoned == s.abandoned[InFlight(s)[0] := MAX_ATTEMPTS]
            && s'.committed == s.committed && s'.position == s.position
  {
    InFlightAfter(s, KafkaFailure);
  }

  lemma GiveUpKept(s: System, s': System)
    requires ShapeOk(s) && FlightOk(s) && ShapeOk(s') && InFlight(s) != []
    requires InFlight(s') == InFlight(s)[1..] && s'.abandoned == s.abandoned[InFlight(s)[0] := MAX_ATTEMPTS]
    requires s'.committed == s.committed && s'.position == s.position
    ensures FlightOk(s')
  {
    AbandonedInOrder(InFlight(s), s.abandoned, s.committed, s.position);
  }

  /** The other steps but a restart leave flight, offsets and abandoned messages alone. */
  lemma QuietStep(s: System, e: Event)
    requires Enabled(s, e) && !e.GetOne? && !Leaves(s, e) && !e.CrashRestart?
    ensures var s' := Apply(s, e);
            && InFlight(s') == InFlight(s) && s'.committed == s.committed && s'.position == s.position
            && s'.abandoned == s.abandoned
  {
    InFlightAfter(s, e);
  }

  lemma QuietKept(s: System, s': System)
    requires ShapeOk(s) && FlightOk(s) && ShapeOk(s')
    requires InFlight(s') == InFlight(s) && s'.committed == s.committed && s'.position == s.position
    requires s'.abandoned == s.abandoned
    ensures FlightOk(s')
  {}

  lemma RestartKept(s': System)
    requires ShapeOk(s') && InFlight(s') == [] && s'.position == s'.committed && s'.abandoned == map[]
    ensures FlightOk(s')
  {
    RestartOk(s'.committed);
  }

  lemma FlightAfterGetOne(s: System, p: Part)
    requires ShapeOk(s) && FlightOk(s) && Enabled(s, GetOne(p)) && ShapeOk(Apply(s, GetOne(p)))
    ensures FlightOk(Apply(s, GetOne(p)))
  {
    GetOneStep(s, p);
    GetOneKept(s, Apply(s, GetOne(p)), p);
  }

  lemma FlightAfterCommit(s: System)
    requires ShapeOk(s) && FlightOk(s) && Enabled(s, Commit) && ShapeOk(Apply(s, Commit))
    ensures FlightOk(Apply(s, Commit))
  {
    CommitStep(s);
    CommitKept(s, Apply(s, Commit));
  }

  lemma FlightAfterGivingUp(s: System)
    requires ShapeOk(s) && FlightOk(s) && Enabled(s, KafkaFailure) && s.work.attempts + 1 == MAX_ATTEMPTS
    requires ShapeOk(Apply(s, KafkaFailure))
    ensures FlightOk(Apply(s, KafkaFailure))
  {
    GiveUpStep(s);
    GiveUpKept(s, Apply(s, KafkaFailure));
  }

  lemma FlightAfterRestart(s: System)
    requires ShapeOk(Apply(s, CrashRestart))
    ensures FlightOk(Apply(s, CrashRestart))
  {
    RestartKept(Apply(s, CrashRestart));
  }

  lemma FlightAfterQuiet(s: System, e: Event)
    requires ShapeOk(s) && FlightOk(s) && Enabled(s, e) && ShapeOk(Apply(s, e))
    requires !e.GetOne? && !Leaves(s, e) && !e.CrashRestart?
    ensures FlightOk(Apply(s, e))
  {
    QuietStep(s, e);
    QuietKept(s, Apply(s, e));
  }

  lemma FlightKept(s: System, e: Event)
    requires ShapeOk(s) && FlightOk(s) && QueueOk(s) && Enabled(s, e) && ShapeOk(Apply(s, e))
    ensures FlightOk(Apply(s, e))
  {
    if e.GetOne? {
      FlightAfterGetOne(s, e.part);
    } else if e.CrashRestart? {
      FlightAfterRestart(s);
    } else if e.Commit? {
      FlightAfterCommit(s);
    } else if Leaves(s, e) {
      FlightAfterGivingUp(s);
    } else {
      FlightAfterQuiet(s, e);
    }
  }

  /** What a commit loses and adds, as equations. */
  lemma CommitEffect(s: System)
    requires Enabled(s, Commit)
    ensures var s', m := Apply(s, Commit), s.work.msg;
            && s'.logs == s.logs && s'.base == s.base
            && s'.outputs == s.outputs + [Output(m, Process(s.logs[m.part][m.offset]))]
            && s'.committed == s.committed[m.part := m.offset + 1]
            && s'.lost == s.lost + Passed(s.abandoned, m.part, s.committed[m.part], m.offset)
            && InFlight(s) != [] && InFlight(s)[0] == m
  {}

  lemma LostCommit(s: System, s': System, m: Msg)
    requires ShapeOk(s) && FlightOk(s) && LostOk(s) && ShapeOk(s') && InFlight(s) != [] && m == InFlight(s)[0]
    requires m.part < |s.logs| && s'.logs == s.logs && s'.committed == s.committed[m.part := m.offset + 1]
    requires s'.lost == s.lost + Passed(s.abandoned, m.part, s.committed[m.part], m.offset)
    ensures LostOk(s')
  {
    assert s.committed[m.part] <= m.offset;
    forall l | l in s'.lost
      ensures l.part < |s'.logs| && l.offset < s'.committed[l.part] && s'.lost[l] == MAX_ATTEMPTS
    {
      if l in Passed(s.abandoned, m.part, s.committed[m.part], m.offset) {
        assert l in s.abandoned;
      } else {
        assert l in s.lost;
      }
    }
  }

  /** Only a commit moves the lost messages, the records and the committed offsets. */
  lemma OnlyCommitMoves(s: System, e: Event)
    requires Enabled(s, e) && !e.Commit?
    ensures var s' := Apply(s, e);
            s'.lost == s.lost && s'.outputs == s.outputs && s'.committed == s.committed && s'.base == s.base
            && |s'.logs| == |s.logs| && (!e.Append? ==> s'.logs == s.logs)
  {}

  lemma LostKept(s: System, e: Event)
    requires ShapeOk(s) && FlightOk(s) && LostOk(s) && Enabled(s, e) && ShapeOk(Apply(s, e))
    ensures LostOk(Apply(s, e))
  {
    if e.Commit? {
      CommitEffect(s);
      LostCommit(s, Apply(s, e), s.work.msg);
    } else {
      OnlyCommitMoves(s, e);
    }
  }

  lemma OfAppend(outputs: seq<Output>, last: Output, part: Part)
    ensures Of(outputs + [last], part) == Of(outputs, part) + (if last.source.part == part then [last] else [])
  {
    assert (outputs + [last])[..|outputs|] == outputs;
  }

  /** The image depends on the inputs and the lost messages below `hi` only. */
  lemma {:induction false} ImageFrame(log: seq<Input>, log': seq<Input>, part: Part, lo: nat, hi: nat,
                                      lost: map<Msg, nat>, lost': map<Msg, nat>)
    requires hi <= |log| && hi <= |log'| && log[..hi] == log'[..hi]
    requires forall o: nat :: o < hi ==> (Msg(part, o) in lost <==> Msg(part, o) in lost')
    ensures Image(log, part, lo, hi, lost) == Image(log', part, lo, hi, lost')
    decreases hi
  {
    if lo < hi {
      assert log[..hi][..hi - 1] == log[..hi - 1] && log'[..hi][..hi - 1] == log'[..hi - 1];
      assert log[hi - 1] == log[..hi][hi - 1] == log'[..hi][hi - 1];
      ImageFrame(log, log', part, lo, hi - 1, lost, lost');
    }
  }

  lemma {:induction false} ImagePassed(log: seq<Input>, part: Part, lo: nat, mid: nat, hi: nat, lost: map<Msg, nat>)
    requires lo <= mid <= hi <= |log|
    requires forall o: nat :: mid <= o < hi ==> Msg(part, o) in lost
    ensures Image(log, part, lo, hi, lost) == Image(log, part, lo, mid, lost)
    decreases hi
  {
    if mid < hi {
      ImagePassed(log, part, lo, mid, hi - 1, lost);
    }
  }

  /** Committing offset `o` after losing everything from `mid` to `o` extends the image by one record. */
  lemma ImageExtended(log: seq<Input>, part: Part, lo: nat, mid: nat, o: nat, lost: map<Msg, nat>, lost': map<Msg, nat>)
    requires lo <= mid <= o < |log|
    requires forall k: nat :: k < mid ==> (Msg(part, k) in lost <==> Msg(part, k) in lost')
    requires forall k: nat :: mid <= k < o ==> Msg(part, k) in lost'
    requires Msg(part, o) !in lost'
    ensures Image(log, part, lo, o + 1, lost') ==
            Image(log, part, lo, mid, lost) + [Output(Msg(part, o), Process(log[o]))]
  {
    ImageFrame(log, log, part, lo, mid, lost, lost');
    ImagePassed(log, part, lo, mid, o, lost');
  }

  /** The lost messages below the committed offset stay the same ones, and up to the new offset all are lost. */
  lemma LostBelow(s: System, m: Msg, lost: map<Msg, nat>)
    requires ShapeOk(s) && FlightOk(s) && LostOk(s) && InFlight(s) != [] && m == InFlight(s)[0]
    requires m.part < |s.committed| && lost == s.lost + Passed(s.abandoned, m.part, s.committed[m.part], m.offset)
    ensures s.committed[m.part] <= m.offset < |s.logs[m.part]| && m !in lost
    ensures forall k: nat :: k < s.committed[m.part] ==> (Msg(m.part, k) in s.lost <==> Msg(m.part, k) in lost)
    ensures forall k: nat :: s.committed[m.part] <= k < m.offset ==> Msg(m.part, k) in lost
    ensures forall p: Part, k: nat :: p != m.part ==> (Msg(p, k) in s.lost <==> Msg(p, k) in lost)
  {
    FirstPasses(InFlight(s), s.abandoned, s.committed, s.position);
  }

  lemma CommitOutputs(s: System, s': System, m: Msg, p: Part)
    requires ShapeOk(s) && FlightOk(s) && LostOk(s) && OutputsOk(s) && InFlight(s) != [] && m == InFlight(s)[0]
    requires p < |s.logs| && m.part < |s.logs| && m.offset < |s.logs[m.part]|
    requires s'.outputs == s.outputs + [Output(m, Process(s.logs[m.part][m.offset]))]
    requires s'.committed == s.committed[m.part := m.offset + 1]
    requires s'.lost == s.lost + Passed(s.abandoned, m.part, s.committed[m.part], m.offset)
    ensures Of(s'.outputs, p) == Image(s.logs[p], p, s.base[p], s'.committed[p], s'.lost)
  {
    LostBelow(s, m, s'.lost);
    OfAppend(s.outputs, Output(m, Process(s.logs[m.part][m.offset])), p);
    assert Of(s.outputs, p) == Image(s.logs[p], p, s.base[p], s.committed[p], s.lost);
    if p == m.part {
      ImageExtended(s.logs[p], p, s.base[p], s.committed[p], m.offset, s.lost, s'.lost);
    } else {
      ImageFrame(s.logs[p], s.logs[p], p, s.base[p], s.committed[p], s.lost, s'.lost);
    }
  }

  lemma OutputsKept(s: System, e: Event)
    requires ShapeOk(s) && FlightOk(s) && LostOk(s) && OutputsOk(s) && Enabled(s, e) && ShapeOk(Apply(s, e))
    ensures OutputsOk(Apply(s, e))
  {
    var s' := Apply(s, e);
    if e.Commit? {
      CommitEffect(s);
      forall p | 0 <= p < |s'.logs|
        ensures Of(s'.outputs, p) == Image(s'.logs[p], p, s'.base[p], s'.committed[p], s'.lost)
      {
        CommitOutputs(s, s', s.work.msg, p);
      }
    } else if e.Append? {
      OnlyCommitMoves(s, e);
      ImageFrame(s.logs[e.part], s'.logs[e.part], e.part, s.base[e.part], s.committed[e.part], s.lost, s.lost);
    } else {
      OnlyCommitMoves(s, e);
    }
  }

  lemma StepKeepsInv(s: System, e: Event)
    requires Inv(s) && Enabled(s, e)
    ensures Inv(Apply(s, e))
  {
    ShapeKept(s, e);
    FlightKept(s, e);
    LostKept(s, e);
    OutputsKept(s, e);
    QueueKept(s, e);
  }

  lemma {:induction false} RunKeepsInv(s: System, es: seq<Event>, s': System)
    requires Inv(s) && Runs(s, es, s')
    ensures Inv(s')
    decreases |es|
  {
    if es == [] {
    } else {
      StepKeepsInv(s, es[0]);
      RunKeepsInv(Apply(s, es[0]), es[1..], s');
    }
  }

  lemma InitialInv(s: System)
    requires Initial(s)
    ensures Inv(s)
  {}

  // ----- What holds over every run -----------------------------------------------------------------

  /** Across any run with aborts, retries and crash-restarts at any step, the committed records of a
      partition are the in-order image of its inputs up to the committed offset, minus exactly the lost
      ones; and each lost one had all four of its attempts aborted before a later commit passed it. */
  lemma OutputsAreTheImage(s0: System, es: seq<Event>, s: System, p: Part)
    requires Initial(s0) && Runs(s0, es, s) && p < |s.logs|
    ensures |s.base| == |s.committed| == |s.logs| && s.committed[p] <= |s.logs[p]|
    ensures Of(s.outputs, p) == Image(s.logs[p], p, s.base[p], s.committed[p], s.lost)
    ensures forall m :: m in s.lost ==> s.lost[m] == 4 && m.part < |s.committed| && m.offset < s.committed[m.part]
  {
    InitialInv(s0);
    RunKeepsInv(s0, es, s);
  }

  lemma {:induction false} ImageMembers(log: seq<Input>, part: Part, lo: nat, hi: nat, lost: map<Msg, nat>)
    requires hi <= |log|
    ensures forall r :: r in Image(log, part, lo, hi, lost) ==>
              && r.source.part == part && lo <= r.source.offset < hi
              && r.source !in lost && r.record == Process(log[r.source.offset])
    decreases hi
  {
    if lo < hi {
      ImageMembers(log, part, lo, hi - 1, lost);
    }
  }

  lemma {:induction false} ImageHolds(log: seq<Input>, part: Part, lo: nat, hi: nat, lost: map<Msg, nat>, o: nat)
    requires lo <= o < hi <= |log| && Msg(part, o) !in lost
    ensures Output(Msg(part, o), Process(log[o])) in Image(log, part, lo, hi, lost)
    decreases hi
  {
    if o < hi - 1 {
      ImageHolds(log, part, lo, hi - 1, lost, o);
    }
  }

  predicate Increasing(image: seq<Output>) {
    forall i, j :: 0 <= i < j < |image| ==> image[i].source.offset < image[j].source.offset
  }

  lemma {:induction false} ImageOrdered(log: seq<Input>, part: Part, lo: nat, hi: nat, lost: map<Msg, nat>)
    requires hi <= |log|
    ensures Increasing(Image(log, part, lo, hi, lost))
    decreases hi
  {
    if lo < hi {
      var before := Image(log, part, lo, hi - 1, lost);
      ImageOrdered(log, part, lo, hi - 1, lost);
      ImageMembers(log, part, lo, hi - 1, lost);
      assert forall i :: 0 <= i < |before| ==> before[i] in before;
    }
  }

  /** What the image holds: exactly the offsets in range that are not lost, each once, in order. */
  lemma ImageOffsets(log: seq<Input>, part: Part, lo: nat, hi: nat, lost: map<Msg, nat>)
    requires hi <= |log|
    ensures Increasing(Image(log, part, lo, hi, lost))
    ensures forall r :: r in Image(log, part, lo, hi, lost) <==>
              && r.source.part == part && lo <= r.source.offset < hi
              && r.source !in lost && r.record == Process(log[r.source.offset])
  {
    ImageOrdered(log, part, lo, hi, lost);
    ImageMembers(log, part, lo, hi, lost);
    forall r: Output | r.source.part == part && lo <= r.source.offset < hi && r.source !in lost
                       && r.record == Process(log[r.source.offset])
      ensures r in Image(log, part, lo, hi, lost)
    {
      ImageHolds(log, part, lo, hi, lost, r.source.offset);
      assert r == Output(Msg(part, r.source.offset), Process(log[r.source.offset]));
    }
  }

  lemma {:induction false} OfHolds(outputs: seq<Output>, i: nat, j: nat)
    requires i < j < |outputs| && outputs[i].source.part == outputs[j].source.part
    ensures var of_ := Of(outputs, outputs[i].source.part);
            exists k, l :: 0 <= k < l < |of_| && of_[k] == outputs[i] && of_[l] == outputs[j]
    decreases |outputs|
  {
    var n, part := |outputs| - 1, outputs[i].source.part;
    assert outputs == outputs[..n] + [outputs[n]];
    OfAppend(outputs[..n], outputs[n], part);
    if j == n {
      OfMember(outputs[..n], i);
      var k :| 0 <= k < |Of(outputs[..n], part)| && Of(outputs[..n], part)[k] == outputs[i];
      assert Of(outputs, part)[k] == outputs[i] && Of(outputs, part)[|Of(outputs[..n], part)|] == outputs[j];
    } else {
      OfHolds(outputs[..n], i, j);
      var k, l :| 0 <= k < l < |Of(outputs[..n], part)| && Of(outputs[..n], part)[k] == outputs[i]
                  && Of(outputs[..n], part)[l] == outputs[j];
      assert Of(outputs, part)[k] == outputs[i] && Of(outputs, part)[l] == outputs[j];
    }
  }

  lemma {:induction false} OfMember(outputs: seq<Output>, i: nat)
    requires i < |outputs|
    ensures outputs[i] in Of(outputs, outputs[i].source.part)
    decreases |outputs|
  {
    var n := |outputs| - 1;
    if i < n {
      OfMember(outputs[..n], i);
    }
  }

  lemma {:induction false} OutputParts(s0: System, es: seq<Event>, s: System)
    requires Runs(s0, es, s)
    requires forall i :: 0 <= i < |s0.outputs| ==> s0.outputs[i].source.part < |s0.logs|
    ensures forall i :: 0 <= i < |s.outputs| ==> s.outputs[i].source.part < |s.logs|
    decreases |es|
  {
    if es == [] {
    } else {
      OutputParts(Apply(s0, es[0]), es[1..], s);
    }
  }

  /** Each input yields at most one committed record, and records of one partition are committed in
      offset order. */
  lemma AtMostOnceInOrder(s0: System, es: seq<Event>, s: System, i: nat, j: nat)
    requires Initial(s0) && Runs(s0, es, s) && i < j < |s.outputs|
    ensures s.outputs[i].source != s.outputs[j].source
    ensures s.outputs[i].source.part == s.outputs[j].source.part ==>
              s.outputs[i].source.offset < s.outputs[j].source.offset
  {
    var p := s.outputs[i].source.part;
    if p == s.outputs[j].source.part {
      OfHolds(s.outputs, i, j);
      OutputParts(s0, es, s);
      OutputsAreTheImage(s0, es, s, p);
      ImageOffsets(s.logs[p], p, s.base[p], s.committed[p], s.lost);
    }
  }

  /** Every committed record is the routing of the input at its source: a JSON object not marked bad goes
      to `alerts` as it is, bytes that are not JSON and bad objects to the dead-letter topic, each with its
      own reason. */
  lemma EveryRecordIsRouted(s0: System, es: seq<Event>, s: System, i: nat)
    requires Initial(s0) && Runs(s0, es, s) && i < |s.outputs|
    ensures var o := s.outputs[i];
            && o.source.part < |s.logs| && o.source.offset < |s.logs[o.source.part]|
            && var input := s.logs[o.source.part][o.source.offset];
               && o.record == Process(input)
               && (input.Object? && !input.badJson ==> o.record == Record("alerts", input.body, ""))
               && (input.NotJson? ==> o.record == Record("rau_events_dlq", input.raw, "deserialization_error"))
               && (input.Object? && input.badJson ==>
                     o.record == Record("rau_events_dlq", "{\"error\": \"bad\"}", "bad_event"))
  {
    var o := s.outputs[i];
    var p := o.source.part;
    OutputParts(s0, es, s);
    OutputsAreTheImage(s0, es, s, p);
    OfMember(s.outputs, i);
    ImageMembers(s.logs[p], p, s.base[p], s.committed[p], s.lost);
    Routing(s.logs[p][o.source.offset]);
  }

  lemma OffsetsGrow(s: System, e: Event)
    requires ShapeOk(s) && FlightOk(s) && Enabled(s, e)
    ensures var s' := Apply(s, e);
            && |s'.committed| == |s.committed| && s.outputs <= s'.outputs
            && forall p :: 0 <= p < |s.committed| ==> s.committed[p] <= s'.committed[p]
  {
    if e.Commit? {
      CommitStep(s);
      assert InFlight(s)[0] == s.work.msg;
    } else {
      OnlyCommitMoves(s, e);
    }
  }

  /** Committed offsets never go back. */
  lemma {:induction false} CommittedNeverGoesBack(s: System, es: seq<Event>, s': System, p: Part)
    requires Inv(s) && Runs(s, es, s') && p < |s.committed|
    ensures p < |s'.committed| && s.committed[p] <= s'.committed[p]
    ensures s.outputs <= s'.outputs
    decreases |es|
  {
    if es == [] {
    } else {
      var next := Apply(s, es[0]);
      StepKeepsInv(s, es[0]);
      OffsetsGrow(s, es[0]);
      CommittedNeverGoesBack(next, es[1..], s', p);
    }
  }

  /** In every interleaving of the two loops the queue holds at most 10001 messages, and every message
      taken from the consumer is finished, in processing or queued, in arrival order, with one
      `task_done` for each finished one. */
  lemma QueueBoundAndOrder(s0: System, es: seq<Event>, s: System)
    requires Initial(s0) && Runs(s0, es, s)
    ensures |s.queue| <= 10001
    ensures s.finished <= |s.arrived| && s.arrived == s.arrived[..s.finished] + InFlight(s)
  {
    InitialInv(s0);
    RunKeepsInv(s0, es, s);
  }

  /** The resume check runs only after a message arrives, and a paused consumer delivers none: once
      paused, it takes no further message until the process restarts. */
  lemma {:induction false} PausedUntilRestart(s: System, es: seq<Event>, s': System)
    requires s.paused && Runs(s, es, s') && CrashRestart !in es
    ensures s'.paused && s'.arrived == s.arrived && s'.position == s.position
    decreases |es|
  {
    if es == [] {
    } else {
      PausedUntilRestart(Apply(s, es[0]), es[1..], s');
    }
  }
}

/** `alert_emitter.py`: a dual write to Postgres and Kafka with deduplication and a compensating
    delete. Any number of `emit` coroutines share the one transactional producer: a transaction can
    only begin while none is open, but an emit that has aborted still awaits its delete while others
    go on. An insert that fails writes nothing, and a commit that fails publishes nothing. */
module AlertEmitter {
  import opened Wrappers

  type EventId = string
  type AlertId = string
  type Id = nat

  /** How far an `emit` has come; `inserted` is its local flag. */
  datatype Phase = Begun | Stored(inserted: bool) | Produced(inserted: bool) | Aborted(inserted: bool)

  datatype Work = Work(event: EventId, alert: AlertId, phase: Phase)

  /** The guest's insert found the row that the owner, still under way, had inserted. */
  datatype Join = Join(owner: Id, guest: Id)

  /** What happened so far: the emits that began, joined another's row, committed, or deleted their row. */
  datatype History = History(begun: set<Id>, joined: set<Join>, committed: set<Id>, undone: set<Id>)

  /** The alerts table by its unique `event_id`, and the committed `alerts` topic. */
  datatype Stores = Stores(rows: map<EventId, AlertId>, published: seq<EventId>)

  /** `open` is the emit whose transaction the producer has open. */
  datatype State = State(stores: Stores, open: Option<Id>, works: map<Id, Work>, history: History)

  datatype Step =
    | Begin(id: Id, event: EventId, alert: AlertId)
    | Insert(id: Id)
    | InsertFails(id: Id)
    | Produce(id: Id)
    | Commit(id: Id)
    | KafkaFails(id: Id)
      // The abort itself raises: the emit is over and its transaction stays open.
    | AbortRaises(id: Id)
    | Compensate(id: Id)
    | CompensateFails(id: Id)
    | Crash

  predicate Owns(s: State, id: Id) {
    id in s.works && !s.works[id].phase.Begun? && s.works[id].phase.inserted
  }

  /** The emits under way that inserted the row of this event. */
  function Owners(s: State, event: EventId): set<Id> {
    set id | id in s.works && Owns(s, id) && s.works[id].event == event
  }

  predicate Enabled(s: State, e: Step) {
    match e
    case Begin(id, _, _) => s.open.None? && id !in s.history.begun
    case Insert(id) => id in s.works && s.works[id].phase.Begun?
    case InsertFails(id) => id in s.works && s.works[id].phase.Begun?
    case Produce(id) => id in s.works && s.works[id].phase.Stored?
    case Commit(id) => id in s.works && s.works[id].phase.Produced?
    case KafkaFails(id) => id in s.works && (s.works[id].phase.Stored? || s.works[id].phase.Produced?)
    case AbortRaises(id) => id in s.works && !s.works[id].phase.Aborted?
    case Compensate(id) => id in s.works && s.works[id].phase.Aborted?
    case CompensateFails(id) => id in s.works && s.works[id].phase.Aborted? && s.works[id].phase.inserted
    case Crash => true
  }

  function To(s: State, id: Id, phase: Phase): State
    requires id in s.works
  {
    s.(works := s.works[id := s.works[id].(phase := phase)])
  }

  function Apply(s: State, e: Step): State
    requires Enabled(s, e)
  {
    match e
    case Begin(id, event, alert) =>
      s.(open := Some(id), works := s.works[id := Work(event, alert, Begun)],
         history := s.history.(begun := s.history.begun + {id}))
    case Insert(id) =>
      // ON CONFLICT (event_id) DO NOTHING RETURNING id
      var w := s.works[id];
      if w.event in s.stores.rows then
        To(s, id, Stored(false)).(
          history := s.history.(joined := s.history.joined + set a | a in Owners(s, w.event) :: Join(a, id)))
      else
        To(s, id, Stored(true)).(stores := s.stores.(rows := s.stores.rows[w.event := w.alert]))
    case InsertFails(id) => s.(open := None, works := s.works - {id})
    case Produce(id) => To(s, id, Produced(s.works[id].phase.inserted))
    case Commit(id) =>
      s.(stores := s.stores.(published := s.stores.published + [s.works[id].event]),
         open := None, works := s.works - {id},
         history := s.history.(committed := s.history.committed + {id}))
    case KafkaFails(id) => To(s, id, Aborted(s.works[id].phase.inserted)).(open := None)
    case AbortRaises(id) => s.(works := s.works - {id})
    case Compensate(id) =>
      if s.works[id].phase.inserted then
        s.(stores := s.stores.(rows := s.stores.rows - {s.works[id].event}), works := s.works - {id},
           history := s.history.(undone := s.history.undone + {id}))
      else s.(works := s.works - {id})
    case CompensateFails(id) => s.(works := s.works - {id})
    case Crash => s.(open := None, works := map[])
  }

  predicate Runs(s: State, es: seq<Step>, s': State)
    decreases |es|
  {
    if es == [] then s' == s
    else Enabled(s, es[0]) && Runs(Apply(s, es[0]), es[1..], s')
  }

  function Published(t: Stores): set<EventId> {
    set id | id in t.published
  }

  /** Every published alert has its row. */
  predicate Safe(t: Stores) {
    Published(t) <= t.rows.Keys
  }

  ghost predicate Initial(s: State) {
    Safe(s.stores) && s.open.None? && s.works == map[] && s.history == History({}, {}, {}, {})
  }

  /** This holds in every state of the run. */
  predicate AlwaysSafe(s: State, es: seq<Step>, s': State)
    requires Runs(s, es, s')
    decreases |es|
  {
    Safe(s.stores) && (es == [] || AlwaysSafe(Apply(s, es[0]), es[1..], s'))
  }

  /** Some emit found the row another one had inserted and was about to delete, and both went through:
      the other deleted it, and this one published. */
  ghost predicate Clash(h: History) {
    exists j :: j in h.joined && j.owner in h.undone && j.guest in h.committed
  }

  // ----- Invariant of the states without a clash -----------------------------------------------------

  predicate Visits(s: State, id: Id) {
    id in s.works && (s.works[id].phase.Stored? || s.works[id].phase.Produced?) && !s.works[id].phase.inserted
  }

  ghost predicate Bookkept(s: State) {
    && (forall id :: id in s.works ==>
          && id in s.history.begun && id !in s.history.committed && id !in s.history.undone
          && (!s.works[id].phase.Aborted? ==> s.open == Some(id)))
    && (forall id :: id in s.history.committed || id in s.history.undone ==> id in s.history.begun)
    && (s.open.Some? ==> s.open.value in s.history.begun)
  }

  ghost predicate JoinOk(s: State, j: Join) {
    && j.owner in s.history.begun && j.guest in s.history.begun
    && (j.owner in s.works ==> Owns(s, j.owner))
    && (j.guest in s.works ==> !s.works[j.guest].phase.Begun? && !s.works[j.guest].phase.inserted)
    && (j.owner in s.works && j.guest in s.works ==> s.works[j.owner].event == s.works[j.guest].event)
  }

  /** An emit of this owner's event has published. */
  ghost predicate GuestCommitted(h: History, owner: Id) {
    exists j :: j in h.joined && j.owner == owner && j.guest in h.committed
  }

  /** The row this guest found has been deleted. */
  ghost predicate OwnerUndone(h: History, guest: Id) {
    exists j :: j in h.joined && j.guest == guest && j.owner in h.undone
  }

  ghost predicate OwnerOk(s: State, a: Id)
    requires Owns(s, a)
  {
    && s.works[a].event in s.stores.rows
    && (s.works[a].event in s.stores.published <==> GuestCommitted(s.history, a))
  }

  ghost predicate GuestOk(s: State, b: Id)
    requires Visits(s, b)
  {
    && (s.works[b].event in s.stores.rows <==> !OwnerUndone(s.history, b))
    && (forall a :: Owns(s, a) && s.works[a].event == s.works[b].event ==> Join(a, b) in s.history.joined)
  }

  ghost predicate Inv(s: State) {
    && Safe(s.stores) && Bookkept(s)
    && (forall j :: j in s.history.joined ==> JoinOk(s, j))
    && (forall a :: Owns(s, a) ==> OwnerOk(s, a))
    && (forall a, b :: Owns(s, a) && Owns(s, b) && s.works[a].event == s.works[b].event ==> a == b)
    && (forall b :: Visits(s, b) ==> GuestOk(s, b))
  }

  /** Steps that touch neither the stores nor what clashes are made of. */
  predicate Quiet(s: State, e: Step)
    requires Enabled(s, e)
  {
    !e.Insert? && !e.Commit? && !(e.Compensate? && s.works[e.id].phase.inserted)
  }

  lemma QuietKeeps(s: State, e: Step)
    requires Enabled(s, e) && Quiet(s, e)
    ensures var s' := Apply(s, e);
            && s'.stores == s.stores
            && s'.history == s.history.(begun := s'.history.begun) && s.history.begun <= s'.history.begun
  {}

  /** An emit that such a step leaves under way has the phase it had, or one with the same flag. */
  lemma QuietWorks(s: State, e: Step)
    requires Bookkept(s) && Enabled(s, e) && Quiet(s, e)
    ensures var s' := Apply(s, e);
            && Bookkept(s')
            && (forall id :: Owns(s', id) ==> Owns(s, id) && s'.works[id].event == s.works[id].event)
            && (forall id :: Visits(s', id) ==> Visits(s, id) && s'.works[id].event == s.works[id].event)
  {}

  lemma QuietJoins(s: State, e: Step, j: Join)
    requires Bookkept(s) && Enabled(s, e) && Quiet(s, e) && JoinOk(s, j)
    ensures JoinOk(Apply(s, e), j)
  {}

  lemma QuietInv(s: State, e: Step)
    requires Inv(s) && Enabled(s, e) && Quiet(s, e)
    ensures Inv(Apply(s, e)) && (Clash(Apply(s, e).history) <==> Clash(s.history))
  {
    var s' := Apply(s, e);
    QuietKeeps(s, e);
    QuietWorks(s, e);
    forall j | j in s'.history.joined ensures JoinOk(s', j) { QuietJoins(s, e, j); }
    forall a | Owns(s', a) ensures OwnerOk(s', a) { assert OwnerOk(s, a); }
    forall b | Visits(s', b) ensures GuestOk(s', b) { assert GuestOk(s, b); }
  }

  /** The insert stores a row: no other emit of this event owned one, and no alert of it is published. */
  lemma InsertsInv(s: State, id: Id)
    requires Inv(s) && Enabled(s, Insert(id)) && s.works[id].event !in s.stores.rows
    ensures Inv(Apply(s, Insert(id))) && Apply(s, Insert(id)).history == s.history
  {
    var s' := Apply(s, Insert(id));
    forall j | j in s'.history.joined ensures JoinOk(s', j) { assert JoinOk(s, j); }
    forall a | Owns(s', a) ensures OwnerOk(s', a) {
      if a != id { assert OwnerOk(s, a); } else { NoGuests(s, id); }
    }
    forall a, b | Owns(s', a) && Owns(s', b) && s'.works[a].event == s'.works[b].event ensures a == b {
      if a != id { assert OwnerOk(s, a); }
      if b != id { assert OwnerOk(s, b); }
    }
    forall b ensures !Visits(s', b) {}
  }

  /** An emit that has not inserted yet has had no guest. */
  lemma NoGuests(s: State, id: Id)
    requires Inv(s) && id in s.works && s.works[id].phase.Begun?
    ensures !GuestCommitted(s.history, id) && !OwnerUndone(s.history, id)
  {
    forall j | j in s.history.joined ensures j.owner != id && j.guest != id { assert JoinOk(s, j); }
  }

  /** The insert finds the row of another emit, or of an earlier one. */
  lemma JoinsInv(s: State, id: Id)
    requires Inv(s) && Enabled(s, Insert(id)) && s.works[id].event in s.stores.rows
    ensures Inv(Apply(s, Insert(id))) && (Clash(Apply(s, Insert(id)).history) <==> Clash(s.history))
  {
    var s' := Apply(s, Insert(id));
    NoGuests(s, id);
    forall j | j in s'.history.joined ensures JoinOk(s', j) {
      if j in s.history.joined { assert JoinOk(s, j); }
    }
    forall a | Owns(s', a) ensures OwnerOk(s', a) {
      assert OwnerOk(s, a);
      assert GuestCommitted(s'.history, a) <==> GuestCommitted(s.history, a);
    }
    forall b | Visits(s', b) ensures GuestOk(s', b) {
      assert b == id;
      forall a | Owns(s', a) && s'.works[a].event == s'.works[b].event ensures Join(a, b) in s'.history.joined {
        assert a in Owners(s, s.works[id].event);
      }
      forall j | j in s'.history.joined && j.guest == b ensures j.owner !in s'.history.undone {
        assert j !in s.history.joined;
      }
    }
  }

  /** A commit by a guest whose row is gone publishes without a row, and that is when a clash is complete. */
  lemma CommitSafeIff(s: State, id: Id)
    requires Inv(s) && !Clash(s.history) && Enabled(s, Commit(id))
    ensures var s' := Apply(s, Commit(id));
            && Published(s'.stores) == Published(s.stores) + {s.works[id].event}
            && (Safe(s'.stores) <==> s.works[id].event in s.stores.rows)
            && (Clash(s'.history) <==> OwnerUndone(s.history, id))
            && (s.works[id].event in s.stores.rows <==> !OwnerUndone(s.history, id))
  {
    if s.works[id].phase.inserted {
      assert OwnerOk(s, id);
      forall j | j in s.history.joined ensures j.guest != id { assert JoinOk(s, j); }
    } else {
      assert GuestOk(s, id);
    }
  }

  lemma CommitOwners(s: State, id: Id, a: Id)
    requires Inv(s) && Enabled(s, Commit(id)) && Owns(Apply(s, Commit(id)), a)
    ensures OwnerOk(Apply(s, Commit(id)), a)
  {
    var s' := Apply(s, Commit(id));
    assert a != id && OwnerOk(s, a);
    if s.works[id].event == s.works[a].event {
      assert !s.works[id].phase.inserted && Visits(s, id) && GuestOk(s, id);
      assert Join(a, id) in s'.history.joined;
    } else {
      forall j | j in s.history.joined && j.owner == a ensures j.guest != id { assert JoinOk(s, j); }
    }
  }

  lemma CommitsInv(s: State, id: Id)
    requires Inv(s) && !Clash(s.history) && Enabled(s, Commit(id)) && s.works[id].event in s.stores.rows
    ensures Inv(Apply(s, Commit(id)))
  {
    var s' := Apply(s, Commit(id));
    CommitSafeIff(s, id);
    forall j | j in s'.history.joined ensures JoinOk(s', j) { assert JoinOk(s, j); }
    forall a | Owns(s', a) ensures OwnerOk(s', a) { CommitOwners(s, id, a); }
    forall b ensures !Visits(s', b) {}
  }

  /** The delete of an owner with a guest that has published removes the row of a published alert. */
  lemma UndoSafeIff(s: State, id: Id)
    requires Inv(s) && !Clash(s.history) && Enabled(s, Compensate(id)) && s.works[id].phase.inserted
    ensures var s' := Apply(s, Compensate(id));
            && (Safe(s'.stores) <==> s.works[id].event !in s.stores.published)
            && (Clash(s'.history) <==> GuestCommitted(s.history, id))
            && (s.works[id].event in s.stores.published <==> GuestCommitted(s.history, id))
  {
    assert OwnerOk(s, id);
  }

  lemma UndoGuests(s: State, id: Id, b: Id)
    requires Inv(s) && Enabled(s, Compensate(id)) && s.works[id].phase.inserted
    requires Visits(Apply(s, Compensate(id)), b)
    ensures GuestOk(Apply(s, Compensate(id)), b)
  {
    var s' := Apply(s, Compensate(id));
    assert GuestOk(s, b);
    if s.works[b].event == s.works[id].event {
      assert Join(id, b) in s'.history.joined;
    } else {
      forall j | j in s.history.joined && j.guest == b ensures j.owner != id { assert JoinOk(s, j); }
    }
  }

  lemma UndoesInv(s: State, id: Id)
    requires Inv(s) && !Clash(s.history) && Enabled(s, Compensate(id)) && s.works[id].phase.inserted
    requires s.works[id].event !in s.stores.published
    ensures Inv(Apply(s, Compensate(id)))
  {
    var s' := Apply(s, Compensate(id));
    forall j | j in s'.history.joined ensures JoinOk(s', j) { assert JoinOk(s, j); }
    forall a | Owns(s', a) ensures OwnerOk(s', a) { assert OwnerOk(s, a); }
    forall b | Visits(s', b) ensures GuestOk(s', b) { UndoGuests(s, id, b); }
  }

  /** From a state without a clash, a step leaves a published alert without its row exactly when it
      completes a clash. */
  lemma StepSafeIff(s: State, e: Step)
    requires Inv(s) && !Clash(s.history) && Enabled(s, e)
    ensures Safe(Apply(s, e).stores) <==> !Clash(Apply(s, e).history)
    ensures !Clash(Apply(s, e).history) ==> Inv(Apply(s, e))
  {
    if Quiet(s, e) {
      QuietInv(s, e);
    } else if e.Commit? {
      CommitSafeIff(s, e.id);
      if s.works[e.id].event in s.stores.rows { CommitsInv(s, e.id); }
    } else if e.Compensate? {
      UndoSafeIff(s, e.id);
      if s.works[e.id].event !in s.stores.published { UndoesInv(s, e.id); }
    } else if s.works[e.id].event in s.stores.rows {
      JoinsInv(s, e.id);
    } else {
      InsertsInv(s, e.id);
    }
  }

  lemma ClashStays(s: State, e: Step)
    requires Enabled(s, e) && Clash(s.history)
    ensures Clash(Apply(s, e).history)
  {
    var h := Apply(s, e).history;
    var j :| j in s.history.joined && j.owner in s.history.undone && j.guest in s.history.committed;
    assert j in h.joined && j.owner in h.undone && j.guest in h.committed;
  }

  lemma {:induction false} ClashForever(s: State, es: seq<Step>, s': State)
    requires Runs(s, es, s') && Clash(s.history)
    ensures Clash(s'.history)
    decreases |es|
  {
    if es == [] {
    } else {
      ClashStays(s, es[0]);
      ClashForever(Apply(s, es[0]), es[1..], s');
    }
  }

  lemma {:induction false} SafeIffNoClash(s: State, es: seq<Step>, s': State)
    requires Inv(s) && !Clash(s.history) && Runs(s, es, s')
    ensures AlwaysSafe(s, es, s') <==> !Clash(s'.history)
    decreases |es|
  {
    if es == [] {
    } else {
      var next := Apply(s, es[0]);
      StepSafeIff(s, es[0]);
      if Clash(next.history) {
        ClashForever(next, es[1..], s');
        assert !Safe(next.stores);
      } else {
        SafeIffNoClash(next, es[1..], s');
      }
    }
  }

  lemma InitialInv(s: State)
    requires Initial(s)
    ensures Inv(s) && !Clash(s.history)
  {}

  // ----- Every run ---------------------------------------------------------------------------------

  /** Over every run of any number of overlapping emits, failing or crashing anywhere: every published
      alert has its row in every state, exactly when no emit that published had found a row which the
      emit that inserted it, still under way, went on to delete. */
  lemma PublishedHasRowIff(s0: State, es: seq<Step>, s: State)
    requires Initial(s0) && Runs(s0, es, s)
    ensures AlwaysSafe(s0, es, s) <==> !Clash(s.history)
  {
    InitialInv(s0);
    SafeIffNoClash(s0, es, s);
  }

  /** Where that was so up to now, the condition can be checked before the step: a delete keeps every
      published alert's row exactly when no emit that found this row has published, and a commit
      exactly when the row it found has not been deleted. */
  lemma CheckBeforeStep(s0: State, es: seq<Step>, s: State, id: Id)
    requires Initial(s0) && Runs(s0, es, s) && AlwaysSafe(s0, es, s)
    ensures Enabled(s, Compensate(id)) && s.works[id].phase.inserted ==>
              (Safe(Apply(s, Compensate(id)).stores) <==> !GuestCommitted(s.history, id))
    ensures Enabled(s, Commit(id)) ==> (Safe(Apply(s, Commit(id)).stores) <==> !OwnerUndone(s.history, id))
  {
    PublishedHasRowIff(s0, es, s);
    RunInv(s0, es, s);
    if Enabled(s, Compensate(id)) && s.works[id].phase.inserted { UndoSafeIff(s, id); }
    if Enabled(s, Commit(id)) { CommitSafeIff(s, id); }
  }

  lemma RunInv(s0: State, es: seq<Step>, s: State)
    requires Initial(s0) && Runs(s0, es, s) && !Clash(s.history)
    ensures Inv(s)
  {
    InitialInv(s0);
    InvKept(s0, es, s);
  }

  lemma {:induction false} InvKept(s: State, es: seq<Step>, s': State)
    requires Inv(s) && !Clash(s.history) && Runs(s, es, s') && !Clash(s'.history)
    ensures Inv(s')
    decreases |es|
  {
    if es == [] {
    } else {
      var next := Apply(s, es[0]);
      if Clash(next.history) {
        ClashForever(next, es[1..], s');
      }
      StepSafeIff(s, es[0]);
      InvKept(next, es[1..], s');
    }
  }

  /** Emits of one event never overlap in this run. */
  predicate OneAtATime(s: State, es: seq<Step>, s': State)
    requires Runs(s, es, s')
    decreases |es|
  {
    es == [] ||
    (&& (es[0].Begin? ==> forall id :: id in s.works ==> s.works[id].event != es[0].event)
     && OneAtATime(Apply(s, es[0]), es[1..], s'))
  }

  ghost predicate Apart(s: State) {
    && s.history.joined == {}
    && (forall a, b :: a in s.works && b in s.works && a != b ==> s.works[a].event != s.works[b].event)
  }

  lemma ApartKept(s: State, e: Step)
    requires Apart(s) && Enabled(s, e)
    requires e.Begin? ==> forall id :: id in s.works ==> s.works[id].event != e.event
    ensures Apart(Apply(s, e))
  {
    if e.Insert? {
      assert Owners(s, s.works[e.id].event) == {};
    }
  }

  lemma {:induction false} ApartOverRun(s: State, es: seq<Step>, s': State)
    requires Apart(s) && Runs(s, es, s') && OneAtATime(s, es, s')
    ensures Apart(s')
    decreases |es|
  {
    if es == [] {
    } else {
      ApartKept(s, es[0]);
      ApartOverRun(Apply(s, es[0]), es[1..], s');
    }
  }

  /** So when emits of one event never overlap, a published alert always has its row, and no
      compensating delete ever removes it. */
  lemma PublishedHasRow(s0: State, es: seq<Step>, s: State)
    requires Initial(s0) && Runs(s0, es, s) && OneAtATime(s0, es, s)
    ensures AlwaysSafe(s0, es, s) && s0.stores.published <= s.stores.published
    ensures forall id :: Enabled(s, Compensate(id)) ==> Safe(Apply(s, Compensate(id)).stores)
  {
    ApartOverRun(s0, es, s);
    PublishedGrows(s0, es, s);
    PublishedHasRowIff(s0, es, s);
    RunInv(s0, es, s);
    forall id | Enabled(s, Compensate(id)) ensures Safe(Apply(s, Compensate(id)).stores) {
      StepSafeIff(s, Compensate(id));
    }
  }

  const EMPTY := State(Stores(map[], []), None, map[], History({}, {}, {}, {}))

  /** One emit has inserted, failed to publish, aborted, and awaits its delete. */
  const AWAITING := State(Stores(map["e" := "a"], []), None, map[1 := Work("e", "a", Aborted(true))],
                          History({1}, {}, {}, {}))

  const RACED := State(Stores(map[], ["e"]), None, map[], History({1, 2}, {Join(1, 2)}, {2}, {1}))

  const FIRST := [Begin(1, "e", "a"), Insert(1), Produce(1), KafkaFails(1)]

  const SECOND := [Begin(2, "e", "b"), Insert(2), Produce(2), Commit(2), Compensate(1)]

  lemma FirstRun()
    ensures Runs(EMPTY, FIRST, AWAITING)
  {
    var s1 := Apply(EMPTY, FIRST[0]);
    var s2 := Apply(s1, FIRST[1]);
    var s3 := Apply(s2, FIRST[2]);
    assert Apply(s3, FIRST[3]) == AWAITING;
    assert Runs(s3, FIRST[3..], AWAITING);
    assert Runs(s2, FIRST[2..], AWAITING);
    assert Runs(s1, FIRST[1..], AWAITING);
  }

  lemma SecondRun()
    ensures Runs(AWAITING, SECOND, RACED)
  {
    var s1 := Apply(AWAITING, SECOND[0]);
    var s2 := Apply(s1, SECOND[1]);
    assert Owners(s1, "e") == {1};
    var s3 := Apply(s2, SECOND[2]);
    var s4 := Apply(s3, SECOND[3]);
    assert Apply(s4, SECOND[4]) == RACED;
    assert Runs(s4, SECOND[4..], RACED);
    assert Runs(s3, SECOND[3..], RACED);
    assert Runs(s2, SECOND[2..], RACED);
    assert Runs(s1, SECOND[1..], RACED);
  }

  /** Overlapping emits of one event do lose a row: while the first awaits its delete, the second finds
      the row and publishes. */
  lemma RaceRun()
    ensures Initial(EMPTY) && Runs(EMPTY, FIRST + SECOND, RACED)
    ensures "e" in RACED.stores.published && "e" !in RACED.stores.rows
  {
    FirstRun();
    SecondRun();
    RunsConcat(EMPTY, FIRST, AWAITING, SECOND, RACED);
  }

  lemma {:induction false} RunsConcat(s: State, es: seq<Step>, s': State, fs: seq<Step>, s'': State)
    requires Runs(s, es, s') && Runs(s', fs, s'')
    ensures Runs(s, es + fs, s'')
    decreases |es|
  {
    if es == [] {
      assert es + fs == fs;
    } else {
      RunsConcat(Apply(s, es[0]), es[1..], s', fs, s'');
      assert (es + fs)[1..] == es[1..] + fs;
    }
  }

  /** Whatever overlaps, what was published stays published. */
  lemma {:induction false} PublishedGrows(s: State, es: seq<Step>, s': State)
    requires Runs(s, es, s')
    ensures s.stores.published <= s'.stores.published
    decreases |es|
  {
    if es == [] {
    } else {
      assert s.stores.published <= Apply(s, es[0]).stores.published;
      PublishedGrows(Apply(s, es[0]), es[1..], s');
    }
  }

  // ----- Whole emits, one after the other ------------------------------------------------------------

  /** How one `emit` leaves the stores. `Interrupted` is a crash after the insert, an abort that raises
      then, or a compensating delete that fails. */
  datatype Outcome = Emitted | Unchanged | Interrupted

  function Emission(t: Stores, event: EventId, alert: AlertId, o: Outcome): Stores {
    var stored := if event in t.rows then t.rows else t.rows[event := alert];
    match o
    case Emitted => Stores(stored, t.published + [event])
    case Unchanged => t
    case Interrupted => Stores(stored, t.published)
  }

  /** No other emit begins in this run. */
  predicate NoBegin(es: seq<Step>) {
    forall k :: 0 <= k < |es| ==> !es[k].Begin?
  }

  predicate Interrupts(es: seq<Step>) {
    exists k :: 0 <= k < |es| && (es[k].Crash? || es[k].AbortRaises? || es[k].CompensateFails?)
  }

  /** This emit alone is under way, and has done to the stores what its phase says. */
  predicate Midway(t: Stores, event: EventId, alert: AlertId, id: Id, s: State) {
    && s.works.Keys == {id} && s.works[id].event == event && s.works[id].alert == alert
    && s.stores == (if s.works[id].phase.Begun? then t else Emission(t, event, alert, Interrupted))
    && (s.works[id].phase.Begun? || s.works[id].phase.inserted == (event !in t.rows))
  }

  lemma OneStep(t: Stores, event: EventId, alert: AlertId, id: Id, s: State, e: Step) returns (o: Outcome)
    requires Midway(t, event, alert, id, s) && Enabled(s, e) && !e.Begin?
    ensures var s' := Apply(s, e);
            Midway(t, event, alert, id, s') || (s'.works == map[] && s'.stores == Emission(t, event, alert, o))
    ensures !e.Crash? && !e.AbortRaises? && !e.CompensateFails? ==> o != Interrupted
  {
    var s' := Apply(s, e);
    o := if e.Commit? then Emitted
         else if (e.Crash? || e.AbortRaises? || e.CompensateFails?) && s'.stores != t then Interrupted
         else Unchanged;
    if e.Compensate? {
      assert s'.stores.rows == t.rows;
    }
    if s'.works.Keys != {id} {
      assert s'.works == map[];
    }
  }

  lemma {:induction false} IdleStays(s: State, es: seq<Step>, s': State)
    requires s.works == map[] && Runs(s, es, s') && NoBegin(es)
    ensures s'.stores == s.stores
    decreases |es|
  {
    if es == [] {
    } else {
      IdleStays(Apply(s, es[0]), es[1..], s');
    }
  }

  lemma {:induction false} MidwayOutcome(t: Stores, event: EventId, alert: AlertId, id: Id, s: State, es: seq<Step>,
                                         s': State)
    returns (o: Outcome)
    requires Midway(t, event, alert, id, s) && Runs(s, es, s') && s'.works == map[] && NoBegin(es)
    ensures s'.stores == Emission(t, event, alert, o) && (!Interrupts(es) ==> o != Interrupted)
    decreases |es|
  {
    var next := Apply(s, es[0]);
    o := OneStep(t, event, alert, id, s, es[0]);
    if Midway(t, event, alert, id, next) {
      o := MidwayOutcome(t, event, alert, id, next, es[1..], s');
      assert forall k :: 0 <= k < |es[1..]| ==> es[1..][k] == es[k + 1];
    } else {
      IdleStays(next, es[1..], s');
    }
  }

  /** Every run of one emit on its own, from its begin until it is over, leaves the stores in one of
      three ways, and in one of two unless a crash, an abort or the delete interrupts it. */
  lemma EmitIsEveryOutcome(s: State, id: Id, event: EventId, alert: AlertId, es: seq<Step>, s': State)
    returns (o: Outcome)
    requires s.works == map[] && Enabled(s, Begin(id, event, alert))
    requires Runs(Apply(s, Begin(id, event, alert)), es, s') && s'.works == map[] && NoBegin(es)
    ensures s'.stores == Emission(s.stores, event, alert, o)
    ensures !Interrupts(es) ==> o != Interrupted
  {
    o := MidwayOutcome(s.stores, event, alert, id, Apply(s, Begin(id, event, alert)), es, s');
  }

  /** Rows without a published alert. */
  function Orphans(t: Stores): set<EventId> {
    t.rows.Keys - Published(t)
  }

  /** What one emit does to the rows without an alert, exactly. Only an interruption makes one, only of
      an event that had no row; and a later emit of the same event heals it. */
  lemma EmitOrphans(t: Stores, event: EventId, alert: AlertId, o: Outcome)
    requires Safe(t)
    ensures Orphans(Emission(t, event, alert, o)) ==
            match o {
              case Emitted => Orphans(t) - {event}
              case Interrupted => if event in t.rows then Orphans(t) else Orphans(t) + {event}
              case Unchanged => Orphans(t)
            }
    ensures Safe(Emission(t, event, alert, o))
  {
    if o.Emitted? {
      assert Published(Emission(t, event, alert, o)) == Published(t) + {event};
    }
  }

  datatype Call = Call(event: EventId, alert: AlertId, outcome: Outcome)

  function EmitAll(t: Stores, calls: seq<Call>): Stores {
    if calls == [] then t
    else
      var c := calls[|calls| - 1];
      Emission(EmitAll(t, calls[..|calls| - 1]), c.event, c.alert, c.outcome)
  }

  /** Table and topic agree after any sequence of uninterrupted emits, duplicates included. */
  lemma {:induction false} UninterruptedEmitsAgree(t: Stores, calls: seq<Call>)
    requires Published(t) == t.rows.Keys
    requires forall k :: 0 <= k < |calls| ==> calls[k].outcome != Interrupted
    ensures Published(EmitAll(t, calls)) == EmitAll(t, calls).rows.Keys
    decreases |calls|
  {
    if calls == [] {
    } else {
      var n := |calls| - 1;
      UninterruptedEmitsAgree(t, calls[..n]);
      EmitOrphans(EmitAll(t, calls[..n]), calls[n].event, calls[n].alert, calls[n].outcome);
    }
  }

  /** The event was interrupted and never emitted successfully, before or since. */
  predicate LeftBehind(calls: seq<Call>, id: EventId) {
    Ended(calls, id, Interrupted) && !Ended(calls, id, Emitted)
  }

  predicate Ended(calls: seq<Call>, id: EventId, o: Outcome) {
    exists k :: 0 <= k < |calls| && calls[k].event == id && calls[k].outcome == o
  }

  lemma EndedLast(calls: seq<Call>, id: EventId, o: Outcome)
    requires calls != []
    ensures var n := |calls| - 1;
            Ended(calls, id, o) <==> Ended(calls[..n], id, o) || (calls[n].event == id && calls[n].outcome == o)
  {
    var n := |calls| - 1;
    if Ended(calls[..n], id, o) {
      var k :| 0 <= k < n && calls[..n][k].event == id && calls[..n][k].outcome == o;
      assert calls[k].event == id && calls[k].outcome == o;
    }
    if k :| 0 <= k < |calls| && calls[k].event == id && calls[k].outcome == o {
      assert k < n ==> calls[..n][k].event == id && calls[..n][k].outcome == o;
    }
  }

  lemma {:induction false} WrittenOnlyByEmit(t: Stores, calls: seq<Call>, id: EventId)
    ensures id in Published(EmitAll(t, calls)) <==> id in Published(t) || Ended(calls, id, Emitted)
    ensures id in EmitAll(t, calls).rows <==> id in t.rows || Ended(calls, id, Emitted) || Ended(calls, id, Interrupted)
    decreases |calls|
  {
    if calls == [] {
    } else {
      WrittenOnlyByEmit(t, calls[..|calls| - 1], id);
      EndedLast(calls, id, Emitted);
      EndedLast(calls, id, Interrupted);
    }
  }

  /** Exactly when table and topic agree after any sequence of emits whatever: when every event whose
      row an interruption wrote is also emitted successfully, or had its row before. */
  lemma EmitsAgreeIff(t: Stores, calls: seq<Call>)
    requires Published(t) == t.rows.Keys
    ensures forall id :: id in Orphans(EmitAll(t, calls)) <==> id !in t.rows && LeftBehind(calls, id)
    ensures Published(EmitAll(t, calls)) == EmitAll(t, calls).rows.Keys <==>
            forall id :: LeftBehind(calls, id) ==> id in t.rows
  {
    forall id {
      WrittenOnlyByEmit(t, calls, id);
    }
  }

  // ----- The class ---------------------------------------------------------------------------------

  ghost predicate Reaches(s: State, s': State) {
    exists es :: Runs(s, es, s')
  }

  lemma ReachesSelf(s: State)
    ensures Reaches(s, s)
  {
    assert Runs(s, [], s);
  }

  lemma ReachesStep(s: State, m: State, e: Step)
    requires Reaches(s, m) && Enabled(m, e)
    ensures Reaches(s, Apply(m, e))
  {
    var es :| Runs(s, es, m);
    assert Runs(m, [e], Apply(m, e)) by {
      assert Runs(Apply(m, e), [], Apply(m, e));
    }
    RunsConcat(s, es, m, [e], Apply(m, e));
  }

  /** Which of the remote calls answer; `publish` covers produce and commit. */
  datatype Answers = Answers(begin: bool, insert: bool, publish: bool, abort: bool, delete: bool)

  function OutcomeOf(a: Answers, stuck: bool, known: bool): Outcome {
    if stuck || !a.begin || !a.insert then Unchanged
    else if a.publish then Emitted
    else if known || (a.abort && a.delete) then Unchanged
    else Interrupted
  }

  /** The producer is left with an open transaction. */
  predicate Sticks(a: Answers) {
    a.begin && !(a.insert && a.publish) && !a.abort
  }

  /** From the insert on, with the transaction begun. */
  lemma InsertedRun(s: State, mid: State, id: Id, a: Answers) returns (s': State)
    requires Reaches(s, mid) && mid.works.Keys == {id} && mid.works[id].phase.Begun? && a.begin && a.insert
    requires mid.open == Some(id)
    ensures Reaches(s, s') && s'.works == map[] && (s'.open.Some? <==> Sticks(a))
    ensures var w := mid.works[id];
            s'.stores == Emission(mid.stores, w.event, w.alert, OutcomeOf(a, false, w.event in mid.stores.rows))
  {
    var inserted := mid.works[id].event !in mid.stores.rows;
    var stored := Apply(mid, Insert(id));
    ReachesStep(s, mid, Insert(id));
    if a.publish {
      ReachesStep(s, stored, Produce(id));
      s' := Finish(s, Apply(stored, Produce(id)), id, Commit(id));
    } else if !a.abort {
      s' := Finish(s, stored, id, AbortRaises(id));
    } else {
      ReachesStep(s, stored, KafkaFails(id));
      var aborted := Apply(stored, KafkaFails(id));
      s' := Finish(s, aborted, id, if inserted && !a.delete then CompensateFails(id) else Compensate(id));
      if inserted && a.delete {
        assert s'.stores.rows == mid.stores.rows;
      }
    }
  }

  /** The step with which the only emit under way ends. */
  lemma Finish(s: State, mid: State, id: Id, e: Step) returns (s': State)
    requires Reaches(s, mid) && mid.works.Keys == {id} && Enabled(mid, e)
    requires e == Commit(id) || e == InsertFails(id) || e == AbortRaises(id) || e == Compensate(id)
             || e == CompensateFails(id)
    ensures s' == Apply(mid, e) && Reaches(s, s') && s'.works == map[]
  {
    ReachesStep(s, mid, e);
    s' := Apply(mid, e);
    assert s'.works == mid.works - {id} == map[];
  }

  /** One emit with no other under way, however its calls answer, is a run of the system. */
  lemma EmitRun(s: State, event: EventId, alert: AlertId, a: Answers) returns (s': State)
    requires s.works == map[] && s.open.None? && a.begin
    ensures Reaches(s, s') && s'.works == map[] && (s'.open.Some? <==> Sticks(a))
    ensures s'.stores == Emission(s.stores, event, alert, OutcomeOf(a, false, event in s.stores.rows))
  {
    var id := Above(s.history.begun);
    var begun := Apply(s, Begin(id, event, alert));
    assert Runs(begun, [], begun) && Runs(s, [Begin(id, event, alert)], begun);
    if a.insert {
      s' := InsertedRun(s, begun, id, a);
    } else {
      s' := Finish(s, begun, id, if a.abort then InsertFails(id) else AbortRaises(id));
    }
  }

  class Emitter {
    var rows: map<EventId, AlertId>
    var published: seq<EventId>
    // A transaction that an abort which raised has left open.
    var stuck: bool
    var dlqAttempts: nat
    ghost var system: State

    constructor ()
      ensures Valid() && Initial(system) && rows == map[] && published == [] && !stuck && dlqAttempts == 0
    {
      rows, published, stuck, dlqAttempts := map[], [], false, 0;
      system := EMPTY;
    }

    ghost predicate Valid()
      reads this
    {
      && system.stores == Stores(rows, published) && system.works == map[]
      && (stuck <==> system.open.Some?)
    }

    /** One emit with no other under way. */
    method Emit(event: EventId, alert: AlertId, a: Answers) returns (raised: bool)
      requires Valid()
      modifies this
      ensures Valid() && Reaches(old(system), system)
      ensures Stores(rows, published) ==
              old(Emission(Stores(rows, published), event, alert, OutcomeOf(a, stuck, event in rows)))
      ensures published == old(published) +
                           (if !old(stuck) && a.begin && a.insert && a.publish then [event] else [])
      ensures forall e :: e in rows <==>
                || e in old(rows)
                || (e == event && !old(stuck) && a.begin && a.insert && (a.publish || !a.abort || !a.delete))
      ensures forall e :: e in rows ==> rows[e] == if e in old(rows) then old(rows)[e] else alert
      ensures raised <==>
                || old(stuck) || !a.begin
                || (!(a.insert && a.publish) && !a.abort)
                || (a.insert && !a.publish && event !in old(rows) && !a.delete)
      ensures stuck <==> old(stuck) || (a.begin && !(a.insert && a.publish) && !a.abort)
      ensures dlqAttempts == old(dlqAttempts) + (if raised || (a.insert && a.publish) then 0 else 1)
    {
      ReachesSelf(system);
      if stuck || !a.begin { return true; }
      system := EmitRun(system, event, alert, a);
      var inserted := false;
      if !a.insert {
        if !a.abort {
          stuck := true;
          return true;
        }
        dlqAttempts := dlqAttempts + 1;
        return false;
      }
      inserted := event !in rows;
      if inserted {
        rows := rows[event := alert];
      }
      if a.publish {
        published := published + [event];
        return false;
      }
      if !a.abort {
        stuck := true;
        return true;
      }
      if inserted {
        if !a.delete { return true; }
        rows := rows - {event};
      }
      dlqAttempts := dlqAttempts + 1;
      raised := false;
    }
  }
}

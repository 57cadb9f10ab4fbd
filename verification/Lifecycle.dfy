/** The sole writer of workflow state. Every call writes state first and then its event; a failing append, or a
    crash in between, leaves the first write without the second. */
module Lifecycle {
  import opened EventTypes
  import opened Prelude
  import Decimal
  import opened Ring
  import opened Storage

  datatype LifecycleError = Refused | Store(error: Error)

  datatype Outcome<+T> = Done(value: T) | Failure(why: LifecycleError)

  datatype Recovery =
    | Reattach(session: string, resume: Option<string>, replayed: nat, lastSeq: Option<int>)
    | CleanFailed
    | AlreadyTerminal(state: WorkflowState)

  function StateEvent(s: WorkflowState): (t: EventType)
    requires Persistable(s)
  {
    match s
    case Running => AgentStarted
    case WaitingInput => InputRequired
    case WaitingApproval => ApprovalRequired
    case Completed => WorkflowCompleted
    case Failed => ErrorOccurred
    case Stopped => WorkflowStopped
  }

  function StateNumber(s: WorkflowState): int {
    match s
    case Unspecified => 0
    case Running => 1
    case WaitingInput => 2
    case WaitingApproval => 3
    case Completed => 4
    case Failed => 5
    case Stopped => 6
    case DisconnectedRunning => 7
  }

  const MARK := "lifecycle-"

  function StateDraft(id: string, session: Option<string>, s: WorkflowState, reason: string, now: int): (d: Draft)
    requires Persistable(s)
    ensures IsLifecycle(d) && d.eventType == StateEvent(s)
  {
    Draft(MARK + (id + "-" + Decimal.IntText(StateNumber(s)) + "-" + Decimal.IntText(now)), session, now,
          StateEvent(s), reason, None)
  }

  /** Lifecycle events are told from all others by their event id. */
  predicate IsLifecycle(d: Draft) { |MARK| <= |d.eventId| && d.eventId[..|MARK|] == MARK }

  const CREATED := "workflow created"

  function RecoveryReason(id: string): string {
    "restart recovery: no session binding for workflow " + id + "; marked failed"
  }

  /** Which writes of a call happen: a failed one ends the call there. */
  datatype Luck = Luck(binds: bool, appends: bool)

  function Noted(db: Db, id: string, session: Option<string>, s: WorkflowState, reason: string, now: int,
                 works: bool): Db
    requires Persistable(s)
  {
    if works then WithEvent(db, id, StateDraft(id, session, s, reason, now), now) else db
  }

  function CreatedDb(db: Db, id: string, provider: Provider, title: string, session: Option<string>, now: int,
                     luck: Luck): Db {
    var a := db.(workflows := db.workflows[id := Workflow(provider, Running, title, session, now, now)]);
    match session
    case None => Noted(a, id, session, Running, CREATED, now, luck.appends)
    case Some(text) =>
      if !luck.binds then a
      else Noted(a.(bindings := a.bindings[id := Binding(text, None)]), id, session, Running, CREATED, now,
                 luck.appends)
  }

  predicate Creatable(db: Db, id: string, provider: Provider, title: string) {
    id != "" && title != "" && provider != UnspecifiedProvider && id !in db.workflows
  }

  predicate Movable(db: Db, id: string, next: WorkflowState, reason: string) {
    Persistable(next) && reason != "" && id in db.workflows && !Terminal(db.workflows[id].state)
  }

  /** What the caller is told: a creation or a move is done when its last write is. */
  predicate CreateDone(db: Db, id: string, provider: Provider, title: string, session: Option<string>, luck: Luck) {
    Creatable(db, id, provider, title) && luck.appends && (session.Some? ==> luck.binds)
  }

  predicate MoveDone(db: Db, id: string, next: WorkflowState, reason: string, works: bool) {
    Movable(db, id, next, reason) && works
  }

  function MovedDb(db: Db, id: string, next: WorkflowState, reason: string, now: int, works: bool): Db
    requires Movable(db, id, next, reason)
  {
    Noted(WithState(db, id, next, now), id, db.workflows[id].session, next, reason, now, works)
  }

  /** Recovery fails a live workflow that has no binding and touches nothing else. */
  predicate Orphaned(db: Db, id: string) {
    id in db.workflows && Persistable(db.workflows[id].state) && !Terminal(db.workflows[id].state) && id !in db.bindings
  }

  function RecoveredDb(db: Db, id: string, now: int, works: bool): Db {
    if Orphaned(db, id)
    then Noted(WithState(db, id, Failed, now), id, db.workflows[id].session, Failed, RecoveryReason(id), now, works)
    else db
  }

  /** The view while the phone is away: terminal rows show themselves, live ones show disconnected. */
  function Projection(workflows: map<string, Workflow>, id: string): Outcome<WorkflowState> {
    if id !in workflows then Failure(Store(NotFound))
    else
      var s := workflows[id].state;
      if Terminal(s) then Done(s)
      else if !Persistable(s) then Failure(Refused)
      else Done(DisconnectedRunning)
  }

  // --- the manager ------------------------------------------------------------------------------

  class WorkflowManager {
    const storage: Storage

    constructor (storage: Storage)
      ensures this.storage == storage
    {
      this.storage := storage;
    }

    method Record(id: string, session: Option<string>, s: WorkflowState, reason: string, now: int, works: bool)
        returns (r: Outcome<Event>)
      requires storage.Valid() && id in storage.workflows && Persistable(s)
      modifies storage
      ensures storage.Valid()
      ensures storage.Contents() == Noted(old(storage.Contents()), id, session, s, reason, now, works)
      ensures r.Done? <==> works
      ensures r.Failure? ==> r.why == Store(Sqlite)
      ensures r.Done? ==> r.value.draft == StateDraft(id, session, s, reason, now)
    {
      hide Consistent, WithEvent, StateDraft;
      if !works { return Failure(Store(Sqlite)); }
      var e := storage.AppendEvent(id, StateDraft(id, session, s, reason, now), now);
      r := Done(e.value);
    }

    method CreateWorkflow(id: string, provider: Provider, title: string, session: Option<string>, now: int, luck: Luck)
        returns (r: Outcome<Workflow>)
      requires storage.Valid()
      modifies storage
      ensures storage.Valid()
      ensures storage.Contents() == if old(Creatable(storage.Contents(), id, provider, title))
                                    then CreatedDb(old(storage.Contents()), id, provider, title, session, now, luck)
                                    else old(storage.Contents())
      ensures r.Done? <==> old(CreateDone(storage.Contents(), id, provider, title, session, luck))
      ensures r.Failure? && r.why == Refused <==> id == "" || title == "" || provider == UnspecifiedProvider
    {
      hide Consistent, WithEvent, StateDraft;
      if id == "" { return Failure(Refused); }
      if title == "" { return Failure(Refused); }
      if provider == UnspecifiedProvider { return Failure(Refused); }
      var row := storage.CreateWorkflow(id, provider, title, session, now);
      if row.Err? { return Failure(Store(row.error)); }
      match session {
        case Some(text) =>
          if !luck.binds { return Failure(Store(Sqlite)); }
          storage.UpsertSessionBinding(id, text, None);
        case None =>
      }
      var e := Record(id, session, Running, CREATED, now, luck.appends);
      r := if e.Done? then Done(row.value) else Failure(e.why);
    }

    method Transition(id: string, next: WorkflowState, reason: string, now: int, works: bool)
        returns (r: Outcome<Workflow>)
      requires storage.Valid()
      modifies storage
      ensures storage.Valid()
      ensures storage.Contents() == if old(Movable(storage.Contents(), id, next, reason))
                                    then MovedDb(old(storage.Contents()), id, next, reason, now, works)
                                    else old(storage.Contents())
      ensures r.Done? <==> old(MoveDone(storage.Contents(), id, next, reason, works))
      ensures r.Failure? && r.why == Refused <==> !Persistable(next) || reason == ""
      ensures r.Failure? && r.why == Store(NotFound)
              <==> Persistable(next) && reason != "" && id !in old(storage.workflows)
    {
      hide Consistent, WithEvent, StateDraft;
      if !Persistable(next) { return Failure(Refused); }
      if reason == "" { return Failure(Refused); }
      var row := storage.SetWorkflowState(id, next, now);
      if row.Err? { return Failure(Store(row.error)); }
      var e := Record(id, row.value.session, next, reason, now, works);
      r := if e.Done? then Done(row.value) else Failure(e.why);
    }

    /** A disconnect never completes a workflow. */
    method TransitionOnDisconnect(id: string, next: WorkflowState, reason: string, now: int, works: bool)
        returns (r: Outcome<Workflow>)
      requires storage.Valid()
      modifies storage
      ensures storage.Valid()
      ensures storage.Contents() == if next != Completed && old(Movable(storage.Contents(), id, next, reason))
                                    then MovedDb(old(storage.Contents()), id, next, reason, now, works)
                                    else old(storage.Contents())
      ensures r.Done? <==> next != Completed && old(MoveDone(storage.Contents(), id, next, reason, works))
    {
      if next == Completed { return Failure(Refused); }
      r := Transition(id, next, reason, now, works);
    }

    function ProjectOnDisconnect(id: string): Outcome<WorkflowState>
      reads storage
    {
      Projection(storage.workflows, id)
    }

    method Reconcile(id: string, now: int, works: bool) returns (r: Outcome<Recovery>)
      requires storage.Valid()
      modifies storage
      ensures storage.Valid()
      ensures storage.Contents() == RecoveredDb(old(storage.Contents()), id, now, works)
      ensures r == ReconcileAnswer(old(storage.Contents()), id, works)
    {
      hide Consistent, WithEvent, StateDraft, RecoveryReason, RingOf, EventsAfter;
      if id !in storage.workflows { return Failure(Store(NotFound)); }
      var stored := storage.workflows[id];
      if Terminal(stored.state) { return Done(AlreadyTerminal(stored.state)); }
      if !Persistable(stored.state) { return Failure(Refused); }
      var replayed := storage.EventsAfter(id, 0, U32_MAX);
      if id in storage.bindings {
        var binding := storage.bindings[id];
        var last := if replayed == [] then None else Some(replayed[|replayed| - 1].seqNo);
        return Done(Reattach(binding.session, binding.resume, |replayed|, last));
      }
      var row := storage.SetWorkflowState(id, Failed, now);
      var e := Record(id, stored.session, Failed, RecoveryReason(id), now, works);
      r := if e.Done? then Done(CleanFailed) else Failure(e.why);
    }
  }

  const U32_MAX: nat := 0xFFFF_FFFF

  function ReconcileAnswer(db: Db, id: string, works: bool): Outcome<Recovery> {
    if id !in db.workflows then Failure(Store(NotFound))
    else
      var s := db.workflows[id].state;
      if Terminal(s) then Done(AlreadyTerminal(s))
      else if !Persistable(s) then Failure(Refused)
      else if id in db.bindings then
        var replayed := EventsAfter(RingOf(db.rings, id).rows, 0, U32_MAX);
        Done(Reattach(db.bindings[id].session, db.bindings[id].resume, |replayed|,
                      if replayed == [] then None else Some(replayed[|replayed| - 1].seqNo)))
      else if works then Done(CleanFailed) else Failure(Store(Sqlite))
  }

  // --- every run --------------------------------------------------------------------------------

  /** One state ever written to a row, and whether its call answered Done. */
  datatype Write = Write(state: WorkflowState, recorded: bool)

  /** The tables, every state write per workflow, and every event per workflow, trimmed or not. */
  datatype World = World(db: Db, writes: map<string, seq<Write>>, log: map<string, seq<Draft>>)

  datatype Op =
    | Create(id: string, provider: Provider, title: string, session: Option<string>, now: int, luck: Luck)
    | Move(id: string, next: WorkflowState, reason: string, now: int, works: bool, disconnected: bool)
    | Recover(id: string, now: int, works: bool)
    | OtherEvent(id: string, draft: Draft, now: int)
    | Bind(id: string, native: string, resume: Option<string>)

  const BEGIN := World(Db(map[], map[], map[], map[], map[]), map[], map[])

  function Of<T>(m: map<string, seq<T>>, id: string): seq<T> { if id in m then m[id] else [] }

  function Wrote(w: World, id: string, s: WorkflowState, recorded: bool, draft: Draft, db: Db): World {
    World(db, w.writes[id := Of(w.writes, id) + [Write(s, recorded)]],
          if recorded then w.log[id := Of(w.log, id) + [draft]] else w.log)
  }

  /** The calls that write a state to the workflow's row. */
  predicate MovesState(db: Db, op: Op, id: string) {
    op.id == id
    && match op
       case Create(_, provider, title, _, _, _) => Creatable(db, id, provider, title)
       case Move(_, next, reason, _, _, disconnected) =>
         !(disconnected && next == Completed) && Movable(db, id, next, reason)
       case Recover(_, _, _) => Orphaned(db, id)
       case _ => false
  }

  /** The answer Done, as `CreateWorkflow`, the two transitions and `Reconcile` give it. */
  predicate AnswersDone(db: Db, op: Op) {
    match op
    case Create(id, provider, title, session, _, luck) => CreateDone(db, id, provider, title, session, luck)
    case Move(id, next, reason, _, works, disconnected) =>
      !(disconnected && next == Completed) && MoveDone(db, id, next, reason, works)
    case Recover(id, _, works) => ReconcileAnswer(db, id, works).Done?
    case _ => true
  }

  /** A state write counts as recorded when its call answered Done. */
  function Apply(w: World, op: Op): World {
    match op
    case Create(id, provider, title, session, now, luck) =>
      if MovesState(w.db, op, id) then
        Wrote(w, id, Running, AnswersDone(w.db, op), StateDraft(id, session, Running, CREATED, now),
              CreatedDb(w.db, id, provider, title, session, now, luck))
      else w
    case Move(id, next, reason, now, works, disconnected) =>
      if MovesState(w.db, op, id) then
        Wrote(w, id, next, AnswersDone(w.db, op), StateDraft(id, w.db.workflows[id].session, next, reason, now),
              MovedDb(w.db, id, next, reason, now, works))
      else w
    case Recover(id, now, works) =>
      if MovesState(w.db, op, id) then
        Wrote(w, id, Failed, AnswersDone(w.db, op),
              StateDraft(id, w.db.workflows[id].session, Failed, RecoveryReason(id), now),
              RecoveredDb(w.db, id, now, works))
      else w
    case OtherEvent(id, draft, now) =>
      if id in w.db.workflows && !IsLifecycle(draft)
      then w.(db := WithEvent(w.db, id, draft, now), log := w.log[id := Of(w.log, id) + [draft]]) else w
    case Bind(id, native, resume) => w.(db := w.db.(bindings := w.db.bindings[id := Binding(native, resume)]))
  }

  function Play(ops: seq<Op>): World {
    if ops == [] then BEGIN else Apply(Play(ops[..|ops| - 1]), ops[|ops| - 1])
  }

  /** The types of the lifecycle events in a log. */
  function Logged(log: seq<Draft>): seq<EventType> {
    if log == [] then []
    else
      var n := |log| - 1;
      Logged(log[..n]) + if IsLifecycle(log[n]) then [log[n].eventType] else []
  }

  predicate AllStorable(writes: seq<Write>) { forall i :: 0 <= i < |writes| ==> Persistable(writes[i].state) }

  /** The types of the events that the recorded writes leave. */
  function Expected(writes: seq<Write>): seq<EventType>
    requires AllStorable(writes)
  {
    if writes == [] then []
    else
      var n := |writes| - 1;
      Expected(writes[..n]) + if writes[n].recorded then [StateEvent(writes[n].state)] else []
  }

  /** How many state writes at the end never got their event. */
  function Lag(writes: seq<Write>): (n: nat)
    ensures n <= |writes|
    ensures forall i :: |writes| - n <= i < |writes| ==> !writes[i].recorded
    ensures n < |writes| ==> writes[|writes| - 1 - n].recorded
  {
    if writes == [] || writes[|writes| - 1].recorded then 0 else 1 + Lag(writes[..|writes| - 1])
  }

  ghost predicate WorkflowOk(db: Db, id: string, writes: seq<Write>, log: seq<Draft>) {
    (id in db.workflows <==> writes != [])
    && (id in db.workflows ==> db.workflows[id].state == writes[|writes| - 1].state)
    && AllStorable(writes)
    && (forall i :: 0 <= i < |writes| - 1 ==> !Terminal(writes[i].state))
    && Logged(log) == Expected(writes)
    && RingOf(db.rings, id) == Appended(log)
  }

  ghost predicate Ok(w: World) { forall id: string :: WorkflowOk(w.db, id, Of(w.writes, id), Of(w.log, id)) }

  // --- one call keeps every workflow in order ---------------------------------------------------

  lemma {:induction false} LoggedSnoc(log: seq<Draft>, d: Draft)
    ensures Logged(log + [d]) == Logged(log) + if IsLifecycle(d) then [d.eventType] else []
  {
    hide IsLifecycle;
    assert (log + [d])[..|log|] == log;
  }

  lemma {:induction false} ExpectedSnoc(writes: seq<Write>, x: Write)
    requires AllStorable(writes) && Persistable(x.state)
    ensures AllStorable(writes + [x])
    ensures Expected(writes + [x]) == Expected(writes) + if x.recorded then [StateEvent(x.state)] else []
  {
    assert (writes + [x])[..|writes|] == writes;
  }

  /** A state write, with or without its event, keeps the workflow it is about in order. */
  lemma WriteKeeps(db: Db, db': Db, id: string, writes: seq<Write>, log: seq<Draft>, s: WorkflowState, recorded: bool,
                   d: Draft)
    requires WorkflowOk(db, id, writes, log) && Persistable(s)
    requires id in db.workflows ==> !Terminal(db.workflows[id].state)
    requires id in db'.workflows && db'.workflows[id].state == s
    requires IsLifecycle(d) && d.eventType == StateEvent(s)
    requires RingOf(db'.rings, id) == if recorded then Append(RingOf(db.rings, id), d) else RingOf(db.rings, id)
    ensures WorkflowOk(db', id, writes + [Write(s, recorded)], if recorded then log + [d] else log)
  {
    hide Append, Appended, IsLifecycle, RingOf;
    LoggedSnoc(log, d);
    AppendedSnoc(log, d);
    ExpectedSnoc(writes, Write(s, recorded));
  }

  lemma OtherKeeps(db: Db, id: string, writes: seq<Write>, log: seq<Draft>, d: Draft, now: int)
    requires WorkflowOk(db, id, writes, log) && !IsLifecycle(d)
    ensures WorkflowOk(WithEvent(db, id, d, now), id, writes, log + [d])
  {
    hide Append, Appended, IsLifecycle;
    LoggedSnoc(log, d);
    AppendedSnoc(log, d);
  }

  /** What a call wrote to another workflow's rows: nothing. */
  lemma UntouchedKeeps(db: Db, db': Db, id: string, writes: seq<Write>, log: seq<Draft>)
    requires WorkflowOk(db, id, writes, log)
    requires (id in db'.workflows <==> id in db.workflows) && RingOf(db'.rings, id) == RingOf(db.rings, id)
    requires id in db.workflows ==> db'.workflows[id].state == db.workflows[id].state
    ensures WorkflowOk(db', id, writes, log)
  {
    hide Appended, Logged, Expected, RingOf;
  }

  /** How a whole call that writes a state changes the tables. */
  lemma NotedMeans(db: Db, id: string, session: Option<string>, s: WorkflowState, reason: string, now: int, works: bool)
    requires Persistable(s)
    ensures var db', d := Noted(db, id, session, s, reason, now, works), StateDraft(id, session, s, reason, now);
            db'.workflows == db.workflows && db'.bindings == db.bindings && db'.requests == db.requests
            && RingOf(db'.rings, id) == (if works then Append(RingOf(db.rings, id), d) else RingOf(db.rings, id))
            && forall other :: other != id ==> RingOf(db'.rings, other) == RingOf(db.rings, other)
  {
    hide Append, StateDraft;
  }

  /** The shape shared by creation, transition and recovery: one row gets state `s`, then its event or not. */
  ghost predicate StateCall(db: Db, db': Db, id: string, s: WorkflowState, recorded: bool, d: Draft) {
    Persistable(s) && IsLifecycle(d) && d.eventType == StateEvent(s)
    && (id in db.workflows ==> !Terminal(db.workflows[id].state))
    && id in db'.workflows && db'.workflows[id].state == s
    && (forall other :: other != id ==>
          (other in db'.workflows <==> other in db.workflows)
          && (other in db.workflows ==> db'.workflows[other] == db.workflows[other])
          && RingOf(db'.rings, other) == RingOf(db.rings, other))
    && RingOf(db'.rings, id) == if recorded then Append(RingOf(db.rings, id), d) else RingOf(db.rings, id)
  }

  lemma StateCallKeeps(w: World, id: string, s: WorkflowState, recorded: bool, d: Draft, db: Db)
    requires Ok(w) && StateCall(w.db, db, id, s, recorded, d)
    ensures Ok(Wrote(w, id, s, recorded, d, db))
  {
    hide WorkflowOk, RingOf, Append, IsLifecycle;
    var w' := Wrote(w, id, s, recorded, d, db);
    forall other: string ensures WorkflowOk(w'.db, other, Of(w'.writes, other), Of(w'.log, other)) {
      if other == id {
        WriteKeeps(w.db, db, id, Of(w.writes, id), Of(w.log, id), s, recorded, d);
      } else {
        UntouchedKeeps(w.db, db, other, Of(w.writes, other), Of(w.log, other));
      }
    }
  }

  lemma CreateIsStateCall(db: Db, id: string, provider: Provider, title: string, session: Option<string>, now: int,
                          luck: Luck)
    requires Creatable(db, id, provider, title)
    ensures StateCall(db, CreatedDb(db, id, provider, title, session, now, luck), id, Running,
                      luck.appends && (session.Some? ==> luck.binds), StateDraft(id, session, Running, CREATED, now))
  {
    hide Noted, RingOf, Append, StateDraft, IsLifecycle;
    var a := db.(workflows := db.workflows[id := Workflow(provider, Running, title, session, now, now)]);
    NotedMeans(a, id, session, Running, CREATED, now, luck.appends);
    if session.Some? {
      NotedMeans(a.(bindings := a.bindings[id := Binding(session.value, None)]), id, session, Running, CREATED, now,
                 luck.appends);
    }
  }

  lemma MoveIsStateCall(db: Db, id: string, next: WorkflowState, reason: string, now: int, works: bool)
    requires id in db.workflows && !Terminal(db.workflows[id].state) && Persistable(next)
    ensures var session := db.workflows[id].session;
            StateCall(db, Noted(WithState(db, id, next, now), id, session, next, reason, now, works), id, next, works,
                      StateDraft(id, session, next, reason, now))
  {
    hide Noted, RingOf, Append, StateDraft, IsLifecycle;
    NotedMeans(WithState(db, id, next, now), id, db.workflows[id].session, next, reason, now, works);
  }

  lemma ApplyKeeps(w: World, op: Op)
    requires Ok(w)
    ensures Ok(Apply(w, op))
  {
    hide Ok, Noted, StateDraft, RecoveryReason, IsLifecycle, StateCall, CreatedDb, Wrote, RingOf;
    match op
    case Create(id, provider, title, session, now, luck) =>
      if MovesState(w.db, op, id) {
        CreateIsStateCall(w.db, id, provider, title, session, now, luck);
        StateCallKeeps(w, id, Running, AnswersDone(w.db, op), StateDraft(id, session, Running, CREATED, now),
                       CreatedDb(w.db, id, provider, title, session, now, luck));
      }
    case Move(id, next, reason, now, works, disconnected) =>
      if MovesState(w.db, op, id) {
        MoveIsStateCall(w.db, id, next, reason, now, works);
        StateCallKeeps(w, id, next, AnswersDone(w.db, op),
                       StateDraft(id, w.db.workflows[id].session, next, reason, now),
                       MovedDb(w.db, id, next, reason, now, works));
      }
    case Recover(id, now, works) =>
      if MovesState(w.db, op, id) {
        MoveIsStateCall(w.db, id, Failed, RecoveryReason(id), now, works);
        StateCallKeeps(w, id, Failed, AnswersDone(w.db, op),
                       StateDraft(id, w.db.workflows[id].session, Failed, RecoveryReason(id), now),
                       RecoveredDb(w.db, id, now, works));
      }
    case OtherEvent(id, draft, now) => OtherEventKeeps(w, id, draft, now);
    case Bind(_, _, _) => BindKeeps(w, Apply(w, op));
  }

  lemma OtherEventKeeps(w: World, id: string, draft: Draft, now: int)
    requires Ok(w)
    ensures Ok(Apply(w, OtherEvent(id, draft, now)))
  {
    hide WorkflowOk, IsLifecycle, Append;
    var w' := Apply(w, OtherEvent(id, draft, now));
    if w' != w {
      forall other: string ensures WorkflowOk(w'.db, other, Of(w'.writes, other), Of(w'.log, other)) {
        if other == id {
          OtherKeeps(w.db, id, Of(w.writes, id), Of(w.log, id), draft, now);
        } else {
          UntouchedKeeps(w.db, w'.db, other, Of(w.writes, other), Of(w.log, other));
        }
      }
    }
  }

  lemma BindKeeps(w: World, w': World)
    requires Ok(w) && w'.writes == w.writes && w'.log == w.log
    requires w'.db.workflows == w.db.workflows && w'.db.rings == w.db.rings
    ensures Ok(w')
  {
    hide WorkflowOk;
    forall id: string ensures WorkflowOk(w'.db, id, Of(w'.writes, id), Of(w'.log, id)) {
      UntouchedKeeps(w.db, w'.db, id, Of(w.writes, id), Of(w.log, id));
    }
  }

  lemma BeginOk()
    ensures Ok(BEGIN) && Play([]) == BEGIN
  {
  }

  lemma {:induction false} PlayKeeps(ops: seq<Op>)
    ensures Ok(Play(ops))
  {
    hide Apply, Ok;
    if ops == [] {
      BeginOk();
    } else {
      PlayKeeps(ops[..|ops| - 1]);
      ApplyKeeps(Play(ops[..|ops| - 1]), ops[|ops| - 1]);
    }
  }

  // --- what it means for every run --------------------------------------------------------------

  /** Only storable states are ever stored, and the lifecycle events of the full history are exactly those of the state
      writes whose event followed, in order. */
  lemma {:induction false} HistoryMatchesWrites(ops: seq<Op>, id: string)
    ensures var w := Play(ops);
            (forall x :: x in Of(w.writes, id) ==> Persistable(x.state))
            && (id in w.db.workflows ==> Persistable(w.db.workflows[id].state))
            && AllStorable(Of(w.writes, id))
            && Logged(Of(w.log, id)) == Expected(Of(w.writes, id))
  {
    hide Play, Logged, Expected, Appended, RingOf;
    PlayKeeps(ops);
    assert WorkflowOk(Play(ops).db, id, Of(Play(ops).writes, id), Of(Play(ops).log, id));
  }

  lemma {:induction false} LastExpected(writes: seq<Write>)
    requires AllStorable(writes)
    ensures Lag(writes) == |writes| <==> Expected(writes) == []
    ensures Lag(writes) < |writes| ==>
              var e := Expected(writes); e != [] && e[|e| - 1] == StateEvent(writes[|writes| - 1 - Lag(writes)].state)
  {
    if writes != [] && !writes[|writes| - 1].recorded {
      LastExpected(writes[..|writes| - 1]);
    }
  }

  lemma StateEventInjective(a: WorkflowState, b: WorkflowState)
    requires Persistable(a) && Persistable(b)
    ensures StateEvent(a) == StateEvent(b) <==> a == b
  {
  }

  /** The type of the last lifecycle event is that of the state written `Lag` writes before the stored one. With no
      lag it is the stored state's; with some it is exactly when those two states are the same. */
  lemma {:induction false} LastEventTells(ops: seq<Op>, id: string)
    requires id in Play(ops).db.workflows
    ensures var w := Play(ops);
            var writes, logged, stored := Of(w.writes, id), Logged(Of(w.log, id)), w.db.workflows[id].state;
            writes != [] && Persistable(stored) && stored == writes[|writes| - 1].state
            && (logged == [] <==> Lag(writes) == |writes|)
            && (logged != [] ==>
                  var past := writes[|writes| - 1 - Lag(writes)].state;
                  Persistable(past) && logged[|logged| - 1] == StateEvent(past)
                  && (logged[|logged| - 1] == StateEvent(stored) <==> past == stored))
  {
    hide Play, Logged, Expected, Appended, RingOf, Lag;
    PlayKeeps(ops);
    var w := Play(ops);
    var writes := Of(w.writes, id);
    assert WorkflowOk(w.db, id, writes, Of(w.log, id));
    hide StateEvent;
    LastExpected(writes);
    if Lag(writes) < |writes| {
      StateEventInjective(writes[|writes| - 1 - Lag(writes)].state, w.db.workflows[id].state);
    }
  }

  lemma {:induction false} PlaySnoc(ops: seq<Op>, op: Op)
    ensures Play(ops + [op]) == Apply(Play(ops), op)
  {
    hide Apply;
    assert (ops + [op])[..|ops|] == ops;
  }

  lemma TornMove(w: World, id: string, next: WorkflowState, reason: string)
    requires Movable(w.db, id, next, reason)
    ensures var w' := Apply(w, Move(id, next, reason, 0, false, false));
            Of(w'.writes, id) == Of(w.writes, id) + [Write(next, false)]
            && Lag(Of(w'.writes, id)) == Lag(Of(w.writes, id)) + 1
            && Of(w'.log, id) == Of(w.log, id)
            && id in w'.db.workflows && w'.db.workflows[id].state == next
  {
    hide StateDraft;
    var writes := Of(w.writes, id);
    assert (writes + [Write(next, false)])[..|writes|] == writes;
  }

  lemma CleanCreate(id: string)
    requires id != ""
    ensures var w := Apply(BEGIN, Create(id, Claude, "t", None, 0, Luck(true, true)));
            Of(w.writes, id) == [Write(Running, true)] && Lag(Of(w.writes, id)) == 0
            && Logged(Of(w.log, id)) == [AgentStarted]
            && id in w.db.workflows && w.db.workflows[id].state == Running
  {
    hide StateDraft, IsLifecycle, Append, NextSeq;
    var d := StateDraft(id, None, Running, CREATED, 0);
    assert Logged([]) == [];
    LoggedSnoc([], d);
    assert [] + [d] == [d];
  }

  // --- what one call means ----------------------------------------------------------------------

  /** The lifecycle event of a state: its type, and the number that its id carries. */
  predicate TellsState(d: Draft, s: WorkflowState, id: string, now: int) {
    (s == Running ==> d.eventType == AgentStarted && d.eventId == "lifecycle-" + id + "-1-" + Decimal.IntText(now))
    && (s == WaitingInput ==>
          d.eventType == InputRequired && d.eventId == "lifecycle-" + id + "-2-" + Decimal.IntText(now))
    && (s == WaitingApproval ==>
          d.eventType == ApprovalRequired && d.eventId == "lifecycle-" + id + "-3-" + Decimal.IntText(now))
    && (s == Completed ==>
          d.eventType == WorkflowCompleted && d.eventId == "lifecycle-" + id + "-4-" + Decimal.IntText(now))
    && (s == Failed ==> d.eventType == ErrorOccurred && d.eventId == "lifecycle-" + id + "-5-" + Decimal.IntText(now))
    && (s == Stopped ==>
          d.eventType == WorkflowStopped && d.eventId == "lifecycle-" + id + "-6-" + Decimal.IntText(now))
    && d.occurredAt == now && d.detail == None
  }

  lemma NumberText(s: WorkflowState)
    requires Persistable(s)
    ensures Decimal.IntText(StateNumber(s)) ==
              match s
              case Running => "1"
              case WaitingInput => "2"
              case WaitingApproval => "3"
              case Completed => "4"
              case Failed => "5"
              case _ => "6"
  {
  }

  lemma StateDraftTells(id: string, session: Option<string>, s: WorkflowState, reason: string, now: int)
    requires Persistable(s)
    ensures var d := StateDraft(id, session, s, reason, now);
            TellsState(d, s, id, now) && d.summary == reason && d.sessionId == session
  {
    NumberText(s);
    hide Decimal.IntText, StateNumber;
    var n, t := Decimal.IntText(StateNumber(s)), Decimal.IntText(now);
    assert "lifecycle-" + (id + "-" + n + "-" + t) == "lifecycle-" + id + ("-" + n + "-") + t;
    assert s == Running ==> "-" + n + "-" == "-1-";
    assert s == WaitingInput ==> "-" + n + "-" == "-2-";
    assert s == WaitingApproval ==> "-" + n + "-" == "-3-";
    assert s == Completed ==> "-" + n + "-" == "-4-";
    assert s == Failed ==> "-" + n + "-" == "-5-";
    assert s == Stopped ==> "-" + n + "-" == "-6-";
  }

  /** The log has got the event of this state, under this reason. */
  ghost predicate Told(w: World, w': World, id: string, s: WorkflowState, session: Option<string>, reason: string,
                       now: int) {
    var log, log' := Of(w.log, id), Of(w'.log, id);
    |log'| == |log| + 1 && log'[..|log|] == log
    && TellsState(log'[|log|], s, id, now) && log'[|log|].summary == reason && log'[|log|].sessionId == session
  }

  lemma WroteTold(w: World, id: string, s: WorkflowState, recorded: bool, d: Draft, db: Db, session: Option<string>,
                  reason: string, now: int)
    requires TellsState(d, s, id, now) && d.summary == reason && d.sessionId == session
    ensures var w' := Wrote(w, id, s, recorded, d, db);
            w'.db == db
            && if recorded then Told(w, w', id, s, session, reason, now) else Of(w'.log, id) == Of(w.log, id)
  {
    hide TellsState;
  }

  /** A creation is refused for an empty id or title, an unspecified provider or a known id; else the row is there,
      running, and, if all its writes worked, its event. */
  lemma CreationMeans(w: World, id: string, provider: Provider, title: string, session: Option<string>, now: int,
                      luck: Luck)
    ensures var op := Create(id, provider, title, session, now, luck);
            var w' := Apply(w, op);
            var admitted := id != "" && title != "" && provider != UnspecifiedProvider && id !in w.db.workflows;
            (admitted ==>
               id in w'.db.workflows && w'.db.workflows[id] == Workflow(provider, Running, title, session, now, now)
               && (AnswersDone(w.db, op) <==> luck.appends && (session == None || luck.binds))
               && (session.Some? && luck.binds ==>
                     id in w'.db.bindings && w'.db.bindings[id] == Binding(session.value, None))
               && (if AnswersDone(w.db, op) then Told(w, w', id, Running, session, "workflow created", now)
                   else Of(w'.log, id) == Of(w.log, id)))
            && (!admitted ==> w' == w && !AnswersDone(w.db, op))
  {
    assert Persistable(Running);
    hide *;
    var op := Create(id, provider, title, session, now, luck);
    StateDraftTells(id, session, Running, CREATED, now);
    CreatedRow(w.db, id, provider, title, session, now, luck);
    CreationAnswers(w.db, id, provider, title, session, now, luck);
    CreationApplies(w, id, provider, title, session, now, luck);
    WroteTold(w, id, Running, AnswersDone(w.db, op), StateDraft(id, session, Running, CREATED, now),
              CreatedDb(w.db, id, provider, title, session, now, luck), session, "workflow created", now);
  }

  lemma CreationApplies(w: World, id: string, provider: Provider, title: string, session: Option<string>, now: int,
                        luck: Luck)
    ensures var op := Create(id, provider, title, session, now, luck);
            Apply(w, op) ==
              if MovesState(w.db, op, id) then
                Wrote(w, id, Running, AnswersDone(w.db, op), StateDraft(id, session, Running, CREATED, now),
                      CreatedDb(w.db, id, provider, title, session, now, luck))
              else w
    ensures CREATED == "workflow created"
  {
    hide MovesState, AnswersDone, StateDraft, CreatedDb, Wrote;
  }

  lemma CreationAnswers(
      db: Db, id: string, provider: Provider, title: string, session: Option<string>, now: int, luck: Luck)
    ensures var op := Create(id, provider, title, session, now, luck);
            var admitted := id != "" && title != "" && provider != UnspecifiedProvider && id !in db.workflows;
            (MovesState(db, op, id) <==> admitted)
            && (AnswersDone(db, op) <==> admitted && luck.appends && (session == None || luck.binds))
  {
  }

  lemma CreatedRow(db: Db, id: string, provider: Provider, title: string, session: Option<string>, now: int, luck: Luck)
    ensures var db' := CreatedDb(db, id, provider, title, session, now, luck);
            id in db'.workflows && db'.workflows[id] == Workflow(provider, Running, title, session, now, now)
            && (session.Some? && luck.binds ==> id in db'.bindings && db'.bindings[id] == Binding(session.value, None))
  {
    hide StateDraft, RingOf, Append, NextSeq;
  }

  /** A transition goes from a live state to any of the six stored ones, under a reason; a disconnect never
      completes. The row changes its state and stamp, and the event follows if its write worked. */
  lemma MoveMeans(w: World, id: string, next: WorkflowState, reason: string, now: int, works: bool, disconnected: bool)
    ensures var op := Move(id, next, reason, now, works, disconnected);
            var w' := Apply(w, op);
            var moves := next in {Running, WaitingInput, WaitingApproval, Completed, Failed, Stopped} && reason != ""
                         && id in w.db.workflows && w.db.workflows[id].state !in {Completed, Failed, Stopped}
                         && !(disconnected && next == Completed);
            (moves ==>
               id in w'.db.workflows && w'.db.workflows[id] == w.db.workflows[id].(state := next, updatedAt := now)
               && (AnswersDone(w.db, op) <==> works)
               && (if works then Told(w, w', id, next, w.db.workflows[id].session, reason, now)
                   else Of(w'.log, id) == Of(w.log, id)))
            && (!moves ==> w' == w && !AnswersDone(w.db, op))
  {
    if Persistable(next) && id in w.db.workflows {
      var session := w.db.workflows[id].session;
      StateDraftTells(id, session, next, reason, now);
      if Movable(w.db, id, next, reason) {
        WroteTold(w, id, next, AnswersDone(w.db, Move(id, next, reason, now, works, disconnected)),
                  StateDraft(id, session, next, reason, now), MovedDb(w.db, id, next, reason, now, works),
                  session, reason, now);
      }
    }
    hide TellsState, StateDraft, WithEvent, Wrote, Told, Of;
  }

  /** What recovery answers: the state of an ended workflow, the binding of a bound one with what the ring still holds,
      a clean failure of any other. */
  lemma RecoveryAnswers(db: Db, id: string, works: bool)
    requires id in db.workflows ==> Persistable(db.workflows[id].state)
    ensures id !in db.workflows ==> ReconcileAnswer(db, id, works) == Failure(Store(NotFound))
    ensures id in db.workflows && db.workflows[id].state in {Completed, Failed, Stopped} ==>
              ReconcileAnswer(db, id, works) == Done(AlreadyTerminal(db.workflows[id].state))
    ensures id in db.workflows && db.workflows[id].state !in {Completed, Failed, Stopped} && id in db.bindings ==>
              var a := ReconcileAnswer(db, id, works);
              a.Done? && a.value.Reattach? && a.value.session == db.bindings[id].session
              && a.value.resume == db.bindings[id].resume
              && a.value.replayed == |EventsAfter(RingOf(db.rings, id).rows, 0, 4_294_967_295)|
    ensures id in db.workflows && db.workflows[id].state !in {Completed, Failed, Stopped} && id !in db.bindings ==>
              ReconcileAnswer(db, id, works) == if works then Done(CleanFailed) else Failure(Store(Sqlite))
  {
    hide EventsAfter, RingOf;
  }

  /** Recovery marks failed exactly the live workflow without a binding. */
  lemma RecoveryMeans(w: World, id: string, now: int, works: bool)
    requires id in w.db.workflows ==> Persistable(w.db.workflows[id].state)
    ensures var op := Recover(id, now, works);
            var w' := Apply(w, op);
            var orphan := id in w.db.workflows && w.db.workflows[id].state !in {Completed, Failed, Stopped}
                          && id !in w.db.bindings;
            (orphan ==>
               id in w'.db.workflows && w'.db.workflows[id] == w.db.workflows[id].(state := Failed, updatedAt := now)
               && (if works
                   then Told(w, w', id, Failed, w.db.workflows[id].session,
                             "restart recovery: no session binding for workflow " + id + "; marked failed", now)
                   else Of(w'.log, id) == Of(w.log, id)))
            && (!orphan ==> w' == w)
  {
    if id in w.db.workflows {
      var session, reason := w.db.workflows[id].session, RecoveryReason(id);
      StateDraftTells(id, session, Failed, reason, now);
      WroteTold(w, id, Failed, AnswersDone(w.db, Recover(id, now, works)), StateDraft(id, session, Failed, reason, now),
                RecoveredDb(w.db, id, now, works), session, reason, now);
    }
    hide TellsState, StateDraft, WithEvent, EventsAfter, Wrote, Told, Of;
  }

  /** One torn call puts the stored state one step ahead of the log, and a second one puts it two ahead: the log's
      last word is then a state that two writes have replaced. */
  lemma TwoTornCalls()
    ensures exists ops: seq<Op> ::
              "w" in Play(ops).db.workflows && Lag(Of(Play(ops).writes, "w")) == 2
              && Logged(Of(Play(ops).log, "w")) == [AgentStarted]
              && Play(ops).db.workflows["w"].state == WaitingApproval
  {
    hide Play, Apply, Lag, Logged;
    var a := Create("w", Claude, "t", None, 0, Luck(true, true));
    var b := Move("w", WaitingInput, "r", 0, false, false);
    var c := Move("w", WaitingApproval, "r", 0, false, false);
    BeginOk();
    PlaySnoc([], a);
    PlaySnoc([] + [a], b);
    PlaySnoc([] + [a] + [b], c);
    CleanCreate("w");
    TornMove(Apply(BEGIN, a), "w", WaitingInput, "r");
    TornMove(Apply(Apply(BEGIN, a), b), "w", WaitingApproval, "r");
    assert Play([] + [a] + [b] + [c]).db.workflows["w"].state == WaitingApproval;
  }

  // --- how far ahead, in terms of calls and their answers -----------------------------------------

  function LagAt(ops: seq<Op>, k: nat, id: string): nat
    requires k <= |ops|
  {
    Lag(Of(Play(ops[..k]).writes, id))
  }

  /** Call `i` wrote a state to the workflow's row and was not answered Done, so its event never followed. */
  predicate Torn(ops: seq<Op>, i: nat, id: string)
    requires i < |ops|
  {
    MovesState(Play(ops[..i]).db, ops[i], id) && !AnswersDone(Play(ops[..i]).db, ops[i])
  }

  predicate Mended(ops: seq<Op>, i: nat, id: string)
    requires i < |ops|
  {
    MovesState(Play(ops[..i]).db, ops[i], id) && AnswersDone(Play(ops[..i]).db, ops[i])
  }

  lemma LagAfterWrite(writes: seq<Write>, x: Write)
    ensures Lag(writes + [x]) == if x.recorded then 0 else Lag(writes) + 1
  {
    assert (writes + [x])[..|writes|] == writes;
  }

  lemma WrittenBy(w: World, op: Op, id: string)
    ensures Of(Apply(w, op).writes, id) == Of(w.writes, id)
            || (MovesState(w.db, op, id)
                && exists s :: Of(Apply(w, op).writes, id) == Of(w.writes, id) + [Write(s, AnswersDone(w.db, op))])
    ensures MovesState(w.db, op, id) ==> |Of(Apply(w, op).writes, id)| > |Of(w.writes, id)|
  {
    hide Creatable, Movable, Orphaned, StateDraft, RecoveryReason, IsLifecycle, CreatedDb, MovedDb, RecoveredDb,
         AnswersDone;
    if MovesState(w.db, op, id) {
      var s := match op
        case Create(_, _, _, _, _, _) => Running
        case Move(_, next, _, _, _, _) => next
        case _ => Failed;
      assert Of(Apply(w, op).writes, id) == Of(w.writes, id) + [Write(s, AnswersDone(w.db, op))];
    }
  }

  /** What one call does to the distance between stored state and log: a state-moving call that answers Done closes
      it, one that fails midway adds one step, any other call leaves it. */
  lemma LagPerCall(ops: seq<Op>, k: nat, id: string)
    requires k < |ops|
    ensures LagAt(ops, k + 1, id) ==
              if Mended(ops, k, id) then 0 else if Torn(ops, k, id) then LagAt(ops, k, id) + 1 else LagAt(ops, k, id)
  {
    hide Play, Apply, MovesState, AnswersDone, Lag, Of;
    var w := Play(ops[..k]);
    assert ops[..k + 1] == ops[..k] + [ops[k]];
    PlaySnoc(ops[..k], ops[k]);
    WrittenBy(w, ops[k], id);
    if s :| Of(Apply(w, ops[k]).writes, id) == Of(w.writes, id) + [Write(s, AnswersDone(w.db, ops[k]))] {
      LagAfterWrite(Of(w.writes, id), Write(s, AnswersDone(w.db, ops[k])));
    }
  }

  lemma LagAtStart(ops: seq<Op>, id: string)
    ensures LagAt(ops, 0, id) == 0
  {
  }

  ghost predicate NotMended(ops: seq<Op>, i: nat, k: nat, id: string)
    requires k <= |ops|
  {
    forall m :: i < m < k ==> !Mended(ops, m, id)
  }

  /** A torn call that nothing mended is still felt. */
  lemma {:induction false} TornStays(ops: seq<Op>, i: nat, k: nat, id: string)
    requires i < k <= |ops| && Torn(ops, i, id) && NotMended(ops, i, k, id)
    ensures LagAt(ops, k, id) >= 1
  {
    hide LagAt, Torn, Mended;
    LagPerCall(ops, k - 1, id);
    TornIsNotMended(ops, i, id);
    if i < k - 1 { TornStays(ops, i, k - 1, id); }
  }

  lemma TornIsNotMended(ops: seq<Op>, i: nat, id: string)
    requires i < |ops| && Torn(ops, i, id)
    ensures !Mended(ops, i, id)
  {
  }

  /** Any distance goes back to a torn call that nothing mended since. */
  lemma {:induction false} LagSource(ops: seq<Op>, k: nat, id: string) returns (i: nat)
    requires k <= |ops| && LagAt(ops, k, id) >= 1
    ensures i < k && Torn(ops, i, id) && NotMended(ops, i, k, id)
    decreases k
  {
    hide LagAt, Torn, Mended;
    LagAtStart(ops, id);
    LagPerCall(ops, k - 1, id);
    if Torn(ops, k - 1, id) {
      i := k - 1;
    } else {
      i := LagSource(ops, k - 1, id);
    }
  }

  /** No torn call on the workflow is followed by another before a state-moving call on it answers Done. */
  ghost predicate TornCallsApart(ops: seq<Op>, id: string) {
    forall i: nat, j: nat :: i < j < |ops| && Torn(ops, i, id) && Torn(ops, j, id) ==> !NotMended(ops, i, j, id)
  }

  lemma {:induction false} ApartKeepsLag(ops: seq<Op>, k: nat, id: string)
    requires k <= |ops| && TornCallsApart(ops, id)
    ensures LagAt(ops, k, id) <= 1
  {
    hide LagAt, Torn, Mended;
    if k == 0 {
      LagAtStart(ops, id);
    } else {
      ApartKeepsLag(ops, k - 1, id);
      LagPerCall(ops, k - 1, id);
      if Torn(ops, k - 1, id) && LagAt(ops, k - 1, id) >= 1 {
        var i := LagSource(ops, k - 1, id);
      }
    }
  }

  /** In every run the stored state stays at most one step ahead of the log exactly when torn calls on the workflow stay
      apart. */
  lemma AtMostOneAhead(ops: seq<Op>, id: string)
    ensures TornCallsApart(ops, id) <==> forall k: nat :: k <= |ops| ==> LagAt(ops, k, id) <= 1
  {
    hide LagAt, Torn, Mended;
    if TornCallsApart(ops, id) {
      forall k: nat | k <= |ops| ensures LagAt(ops, k, id) <= 1 { ApartKeepsLag(ops, k, id); }
    } else {
      hide NotMended;
      var i: nat, j: nat :| i < j < |ops| && Torn(ops, i, id) && Torn(ops, j, id) && NotMended(ops, i, j, id);
      TornStays(ops, i, j, id);
      TornIsNotMended(ops, j, id);
      LagPerCall(ops, j, id);
      assert LagAt(ops, j + 1, id) >= 2;
    }
  }

  /** A terminal state is never left, by any later calls. */
  lemma {:induction false} TerminalIsFinal(ops: seq<Op>, later: seq<Op>, id: string)
    requires id in Play(ops).db.workflows && Play(ops).db.workflows[id].state in {Completed, Failed, Stopped}
    ensures id in Play(ops + later).db.workflows
    ensures Play(ops + later).db.workflows[id] == Play(ops).db.workflows[id]
  {
    hide Noted, StateDraft, Orphaned, RecoveryReason, IsLifecycle;
    if later == [] {
      assert ops + later == ops;
    } else {
      var n := |later| - 1;
      TerminalIsFinal(ops, later[..n], id);
      assert (ops + later)[..|ops + later| - 1] == ops + later[..n];
      TerminalStep(Play(ops + later[..n]), later[n], id);
    }
  }

  lemma TerminalStep(w: World, op: Op, id: string)
    requires id in w.db.workflows && Terminal(w.db.workflows[id].state)
    ensures id in Apply(w, op).db.workflows && Apply(w, op).db.workflows[id] == w.db.workflows[id]
  {
    hide StateDraft, RecoveryReason, IsLifecycle, Append, RingOf;
  }

  /** In every run a stored row projects: to itself exactly when it is terminal, else to disconnected, which is never
      stored; so a live workflow is never shown as ended while the phone is away. */
  lemma ProjectionIsHonest(ops: seq<Op>, id: string)
    requires id in Play(ops).db.workflows
    ensures var stored, p := Play(ops).db.workflows[id].state, Projection(Play(ops).db.workflows, id);
            p.Done? && (p.value == stored <==> stored in {Completed, Failed, Stopped})
            && (stored !in {Completed, Failed, Stopped} ==> p.value == DisconnectedRunning)
            && stored != DisconnectedRunning && stored != WorkflowState.Unspecified
  {
    hide Play, Logged, Expected, Appended, RingOf;
    HistoryMatchesWrites(ops, id);
  }

  /** Recovery leaves a workflow terminal or bound, a second one changes nothing, and the answer to a reattach is
      repeated word for word. */
  lemma {:induction false} ReconcileSettles(ops: seq<Op>, id: string, now: int, works: bool, now': int, works': bool)
    requires id in Play(ops).db.workflows
    ensures var db := Play(ops).db;
            var db' := RecoveredDb(db, id, now, works);
            id in db'.workflows && (db'.workflows[id].state in {Completed, Failed, Stopped} || id in db'.bindings)
            && RecoveredDb(db', id, now', works') == db'
            && (match ReconcileAnswer(db, id, works)
                case Done(CleanFailed) => ReconcileAnswer(db', id, works') == Done(AlreadyTerminal(Failed))
                case Failure(_) => ReconcileAnswer(db', id, works') == Done(AlreadyTerminal(Failed))
                case answer => db' == db && ReconcileAnswer(db', id, works') == answer)
  {
    hide Play, StateDraft, RecoveryReason, Append, NextSeq, EventsAfter;
    HistoryMatchesWrites(ops, id);
  }

  /** On a reattach, the last number minus the events replayed is exactly the cut. */
  lemma {:induction false} ReattachCounts(ops: seq<Op>, id: string, works: bool)
    requires ReconcileAnswer(Play(ops).db, id, works).Done? && ReconcileAnswer(Play(ops).db, id, works).value.Reattach?
    ensures var a, ring := ReconcileAnswer(Play(ops).db, id, works).value, RingOf(Play(ops).db.rings, id);
            match a.lastSeq
            case Some(last) => last - a.replayed == (if ring.cut.Some? then ring.cut.value.before else 0)
                               && last == |Of(Play(ops).log, id)|
            case None => a.replayed == 0 && Of(Play(ops).log, id) == []
  {
    hide Play, Logged, Expected, Fits, NextSeq, Appended;
    PlayKeeps(ops);
    var log := Of(Play(ops).log, id);
    assert WorkflowOk(Play(ops).db, id, Of(Play(ops).writes, id), log);
    Conservation(log);
    var rows := Appended(log).rows;
    var cut := |log| - |rows|;
    PageOf(rows, cut + 1, 0, U32_MAX);
  }
}

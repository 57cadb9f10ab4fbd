/** One pairing session across two stores. Any number of create, join, decide and read calls interleave; each step is
    one Redis command or one Postgres statement or transaction, which may also fail, or take effect and have its
    answer lost. The Redis hash may vanish and any set of calls may die at any moment. */
module Pairing {
  import opened Prelude

  datatype Status = Pending | Approved | Rejected | Expired | Consumed

  /** The audit row. */
  datatype Row = Row(status: Status, expiresAt: int, joinKey: Option<string>, joinReq: Option<string>, granter: string)

  datatype Grant = Grant(key: string, granter: string)

  /** The live hash; every field can be missing, since commands recreate a hash that vanished. */
  datatype Hash = Hash(status: Option<Status>, expiresAt: Option<int>, joinReq: Option<string>, joinPub: Option<string>)

  const NO_HASH := Hash(None, None, None, None)

  /** What a call does next. `live` says that the Redis half of a join was accepted. */
  datatype Call =
    | CreateRow(expiresAt: int)
    | CreateLatch(expiresAt: int)
    | CreateFields(expiresAt: int)
    | JoinCheck(key: string, req: string)
    | JoinLatch(key: string, req: string)
    | JoinFields(key: string, req: string)
    | JoinRead(key: string, req: string, live: bool)
    | JoinWrite(key: string, req: string, live: bool)
    | JoinExpire(live: bool)
    | DecideCheck(approve: bool, key: string, granter: string)
    | DecideTx(approve: bool, key: string, granter: string)
    | MarkDecided(approve: bool)
    | MarkDead
    | ReadLive
    | ReadAudit
    | ReadExpire

  /** A step works, fails without effect, or takes effect and reports a failure. */
  datatype Luck = Works | Fails | AnswerLost

  /** Both stores, the calls in memory, and logs: join keys Postgres recorded, decisions that returned success, and
      statuses that reads returned. */
  datatype System = System(
    now: int, pg: Option<Row>, grants: seq<Grant>, rd: Option<Hash>, calls: map<nat, Call>,
    recorded: seq<string>, successes: seq<bool>, reports: seq<Status>)

  const START := System(0, None, [], None, map[], [], [], [])

  datatype Move =
    | Tick(now: int)
    | Begin(p: nat, call: Call)
    | Step(p: nat, luck: Luck)
    | KeyLoss
    | Crash(ps: set<nat>)

  predicate Opening(c: Call) { c.CreateRow? || c.JoinCheck? || c.DecideCheck? || c.ReadLive? }

  predicate Enabled(s: System, m: Move) {
    match m
    case Tick(now) => s.now <= now
    case Begin(p, call) => p !in s.calls && Opening(call)
    case Step(p, _) => p in s.calls
    case KeyLoss => true
    case Crash(_) => true
  }

  function Goto(s: System, p: nat, call: Call): System { s.(calls := s.calls[p := call]) }

  function Done(s: System, p: nat): System { s.(calls := s.calls - {p}) }

  function TheHash(s: System): Hash { if s.rd.Some? then s.rd.value else NO_HASH }

  /** Redis keeps whole seconds. */
  function Seconds(millis: int): int { millis / 1000 * 1000 }

  /** Past the expiry the hash knows; a hash without one reads as expired. */
  predicate PastExpiry(h: Hash, now: int) { h.expiresAt == None || h.expiresAt.value <= now }

  /** A failed Postgres join fails the live entry too, if there was one. */
  function FailJoin(s: System, p: nat, live: bool): System { if live then Goto(s, p, MarkDead) else Done(s, p) }

  /** `UPDATE … SET status = 'expired' … WHERE status = 'pending'`. */
  function ExpireRow(pg: Option<Row>): Option<Row> {
    if pg.Some? && pg.value.status == Pending then Some(pg.value.(status := Expired)) else pg
  }

  function SetStatus(s: System, status: Status): System {
    s.(rd := Some(TheHash(s).(status := Some(status))))
  }

  // --- create -----------------------------------------------------------------------------------

  function CreateStep(s: System, p: nat, c: Call, luck: Luck): System
    requires p in s.calls && (c.CreateRow? || c.CreateLatch? || c.CreateFields?)
  {
    if luck == Fails then Done(s, p)
    else match c
      case CreateRow(t) =>
        if s.pg.Some? then Done(s, p)
        else
          var s' := s.(pg := Some(Row(Pending, t, None, None, "")));
          if luck == AnswerLost then Done(s', p) else Goto(s', p, CreateLatch(t))
      case CreateLatch(t) =>
        if t <= s.now || (s.rd.Some? && s.rd.value.status.Some?) then Done(s, p)
        else
          var s' := SetStatus(s, Pending);
          if luck == AnswerLost then Done(s', p) else Goto(s', p, CreateFields(t))
      case CreateFields(t) =>
        Done(s.(rd := Some(TheHash(s).(status := Some(Pending), expiresAt := Some(Seconds(t))))), p)
  }

  // --- join -------------------------------------------------------------------------------------

  function JoinStep(s: System, p: nat, c: Call, luck: Luck): System
    requires p in s.calls
    requires c.JoinCheck? || c.JoinLatch? || c.JoinFields? || c.JoinRead? || c.JoinWrite? || c.JoinExpire?
  {
    match c
    case JoinCheck(key, req) =>
      if luck != Works || key == "" || req == "" then Done(s, p)
      else if s.rd == None then Goto(s, p, JoinRead(key, req, false))
      else
        var h := s.rd.value;
        if h.status != Some(Pending) || PastExpiry(h, s.now) || h.joinReq.Some? then Done(s, p)
        else Goto(s, p, JoinLatch(key, req))
    case JoinLatch(key, req) =>
      if luck == Fails || TheHash(s).joinReq.Some? then Done(s, p)
      else
        var s' := s.(rd := Some(TheHash(s).(joinReq := Some(req))));
        if luck == AnswerLost then Done(s', p) else Goto(s', p, JoinFields(key, req))
    case JoinFields(key, req) =>
      if luck == Fails then Done(s, p)
      else
        var s' := s.(rd := Some(TheHash(s).(joinPub := Some(key))));
        if luck == AnswerLost then Done(s', p) else Goto(s', p, JoinRead(key, req, true))
    case JoinRead(key, req, live) =>
      if luck != Works || s.pg == None || s.pg.value.status != Pending then FailJoin(s, p, live)
      else if s.pg.value.expiresAt <= s.now then Goto(s, p, JoinExpire(live))
      else if s.pg.value.joinKey.Some? || s.pg.value.joinReq.Some? then FailJoin(s, p, live)
      else Goto(s, p, JoinWrite(key, req, live))
    case JoinWrite(key, req, live) =>
      if luck == Fails || s.pg == None || s.pg.value.status != Pending || s.pg.value.joinReq.Some?
      then FailJoin(s, p, live)
      else
        var s' :=
          s.(pg := Some(s.pg.value.(joinKey := Some(key), joinReq := Some(req))), recorded := s.recorded + [key]);
        if luck == AnswerLost then FailJoin(s', p, live) else Done(s', p)
    case JoinExpire(live) => FailJoin(if luck == Fails then s else s.(pg := ExpireRow(s.pg)), p, live)
  }

  // --- decide -----------------------------------------------------------------------------------

  function Decided(approve: bool): Status { if approve then Approved else Rejected }

  function DecideStep(s: System, p: nat, c: Call, luck: Luck): System
    requires p in s.calls && (c.DecideCheck? || c.DecideTx? || c.MarkDecided? || c.MarkDead?)
  {
    match c
    case DecideCheck(approve, key, granter) =>
      if luck != Works then Done(s, p)
      else if s.rd.Some? && (s.rd.value.status != Some(Pending) || PastExpiry(s.rd.value, s.now)) then Done(s, p)
      else Goto(s, p, DecideTx(approve, key, granter))
    case DecideTx(approve, key, granter) =>
      if luck == Fails || s.pg == None then Done(s, p)
      else
        var row := s.pg.value;
        if row.status != Pending then (if luck == AnswerLost then Done(s, p) else Goto(s, p, MarkDead))
        else if row.expiresAt <= s.now then
          var s' := s.(pg := ExpireRow(s.pg));
          if luck == AnswerLost then Done(s', p) else Goto(s', p, MarkDead)
        else if approve && (key == "" || row.joinKey != Some(key)) then Done(s, p)
        else
          var s' := s.(pg := Some(row.(status := Decided(approve), granter := granter)),
                       grants := if approve then s.grants + [Grant(key, granter)] else s.grants);
          if luck == AnswerLost then Done(s', p) else Goto(s', p, MarkDecided(approve))
    case MarkDecided(approve) =>
      var s' := Done(s, p).(successes := s.successes + [approve]);
      if luck == Fails then s' else SetStatus(s', Decided(approve))
    case MarkDead => if luck == Fails then Done(s, p) else SetStatus(Done(s, p), Consumed)
  }

  // --- read -------------------------------------------------------------------------------------

  function ReadStep(s: System, p: nat, c: Call, luck: Luck): System
    requires p in s.calls && (c.ReadLive? || c.ReadAudit? || c.ReadExpire?)
  {
    match c
    case ReadLive =>
      if luck != Works then Done(s, p)
      else if s.rd == None then Goto(s, p, ReadAudit)
      else
        var h := s.rd.value;
        if (h.status == Some(Pending) && PastExpiry(h, s.now)) || h.status == None then Done(s, p)
        else Done(s, p).(reports := s.reports + [h.status.value])
    case ReadAudit =>
      if luck != Works || s.pg == None then Done(s, p)
      else if s.pg.value.status == Pending && s.pg.value.expiresAt <= s.now then Goto(s, p, ReadExpire)
      else Done(s, p).(reports := s.reports + [s.pg.value.status])
    case ReadExpire =>
      if luck == Fails then Done(s, p)
      else
        var s' := Done(s, p).(pg := ExpireRow(s.pg));
        if luck == AnswerLost then s' else s'.(reports := s.reports + [Expired])
  }

  function Advance(s: System, p: nat, luck: Luck): System
    requires p in s.calls
  {
    var c := s.calls[p];
    if c.CreateRow? || c.CreateLatch? || c.CreateFields? then CreateStep(s, p, c, luck)
    else if c.DecideCheck? || c.DecideTx? || c.MarkDecided? || c.MarkDead? then DecideStep(s, p, c, luck)
    else if c.ReadLive? || c.ReadAudit? || c.ReadExpire? then ReadStep(s, p, c, luck)
    else JoinStep(s, p, c, luck)
  }

  function Apply(s: System, m: Move): System
    requires Enabled(s, m)
  {
    match m
    case Tick(now) => s.(now := now)
    case Begin(p, call) => Goto(s, p, call)
    case Step(p, luck) => Advance(s, p, luck)
    case KeyLoss => s.(rd := None)
    case Crash(ps) => s.(calls := s.calls - ps)
  }

  // --- invariants -------------------------------------------------------------------------------

  predicate Is(pg: Option<Row>, status: Status) { pg.Some? && pg.value.status == status }

  /** The grant table, the audit row and the log of recorded joins say the same thing. */
  ghost predicate AuditOk(pg: Option<Row>, grants: seq<Grant>, recorded: seq<string>) {
    match pg
    case None => grants == [] && recorded == []
    case Some(r) =>
      r.status != Consumed
      && (r.joinKey.Some? <==> r.joinReq.Some?)
      && recorded == (if r.joinKey.Some? then [r.joinKey.value] else [])
      && (if r.status == Approved then r.joinKey.Some? && grants == [Grant(r.joinKey.value, r.granter)]
          else grants == [])
  }

  /** Redis only says approved or rejected after Postgres did. */
  ghost predicate LiveOk(pg: Option<Row>, rd: Option<Hash>) {
    rd.Some? && rd.value.status.Some? ==>
      var status := rd.value.status.value;
      status != Expired && (status == Approved || status == Rejected ==> Is(pg, status))
  }

  /** At most one decision has got past Postgres, whether it has returned yet or not. */
  ghost predicate DecisionsOk(pg: Option<Row>, calls: map<nat, Call>, successes: seq<bool>) {
    (forall p :: p in calls && calls[p].MarkDecided? ==> Is(pg, Decided(calls[p].approve)) && successes == [])
    && (forall p, q :: p in calls && q in calls && calls[p].MarkDecided? && calls[q].MarkDecided? ==> p == q)
    && |successes| <= 1
    && (successes != [] ==> Is(pg, Decided(successes[0])))
  }

  /** A read that is about to expire the row found it pending and late, which no decision can change any more. */
  ghost predicate LateReads(pg: Option<Row>, calls: map<nat, Call>, now: int) {
    forall p :: p in calls && calls[p].ReadExpire? ==>
      pg.Some? && pg.value.expiresAt <= now && (pg.value.status == Pending || pg.value.status == Expired)
  }

  ghost predicate ReportsOk(pg: Option<Row>, reports: seq<Status>) {
    forall r :: r in reports && (r == Approved || r == Rejected || r == Expired) ==> Is(pg, r)
  }

  /** A settled row never changes again and a recorded join never goes away. */
  ghost predicate Keeps(pg: Option<Row>, pg': Option<Row>) {
    pg.Some? ==>
      pg'.Some? && pg'.value.expiresAt == pg.value.expiresAt
      && (pg.value.status != Pending ==> pg'.value == pg.value)
      && (pg.value.joinReq.Some? ==> pg'.value.joinKey == pg.value.joinKey && pg'.value.joinReq == pg.value.joinReq)
  }

  ghost predicate Inv(s: System) {
    AuditOk(s.pg, s.grants, s.recorded) && LiveOk(s.pg, s.rd) && DecisionsOk(s.pg, s.calls, s.successes)
    && LateReads(s.pg, s.calls, s.now) && ReportsOk(s.pg, s.reports)
  }

  // --- every move keeps them --------------------------------------------------------------------

  lemma RowKeeps(s: System, m: Move)
    requires Enabled(s, m)
    ensures Keeps(s.pg, Apply(s, m).pg)
  {
    hide TheHash, PastExpiry;
  }

  predicate Creating(c: Call) { c.CreateRow? || c.CreateLatch? || c.CreateFields? }

  predicate Deciding(c: Call) { c.DecideCheck? || c.DecideTx? || c.MarkDecided? || c.MarkDead? }

  predicate Reading(c: Call) { c.ReadLive? || c.ReadAudit? || c.ReadExpire? }

  lemma AuditJoin(s: System, p: nat, luck: Luck)
    requires AuditOk(s.pg, s.grants, s.recorded) && p in s.calls
    requires !Creating(s.calls[p]) && !Deciding(s.calls[p]) && !Reading(s.calls[p])
    ensures var s' := JoinStep(s, p, s.calls[p], luck); AuditOk(s'.pg, s'.grants, s'.recorded)
  {
    hide TheHash, PastExpiry;
    if s.calls[p].JoinWrite? { assert [] + [s.calls[p].key] == [s.calls[p].key]; }
  }

  lemma AuditDecide(s: System, p: nat, luck: Luck)
    requires AuditOk(s.pg, s.grants, s.recorded) && p in s.calls && Deciding(s.calls[p])
    ensures var s' := DecideStep(s, p, s.calls[p], luck); AuditOk(s'.pg, s'.grants, s'.recorded)
  {
    hide TheHash, PastExpiry;
    var c := s.calls[p];
    if c.DecideTx? { assert [] + [Grant(c.key, c.granter)] == [Grant(c.key, c.granter)]; }
  }

  lemma AuditKept(s: System, m: Move)
    requires AuditOk(s.pg, s.grants, s.recorded) && Enabled(s, m)
    ensures AuditOk(Apply(s, m).pg, Apply(s, m).grants, Apply(s, m).recorded)
  {
    hide JoinStep, DecideStep, TheHash, PastExpiry;
    if m.Step? && Deciding(s.calls[m.p]) {
      AuditDecide(s, m.p, m.luck);
    } else if m.Step? && !Creating(s.calls[m.p]) && !Reading(s.calls[m.p]) {
      AuditJoin(s, m.p, m.luck);
    }
  }

  lemma LiveKept(s: System, m: Move)
    requires LiveOk(s.pg, s.rd) && DecisionsOk(s.pg, s.calls, s.successes) && Enabled(s, m)
    ensures LiveOk(Apply(s, m).pg, Apply(s, m).rd)
  {
    hide PastExpiry;
  }

  ghost predicate OthersSame(s: System, s': System, p: nat) {
    forall q :: q != p ==> (q in s'.calls <==> q in s.calls) && (q in s.calls ==> s'.calls[q] == s.calls[q])
  }

  lemma CreateFrame(s: System, p: nat, luck: Luck)
    requires p in s.calls && Creating(s.calls[p])
    ensures var s' := CreateStep(s, p, s.calls[p], luck);
            OthersSame(s, s', p) && s'.successes == s.successes && s'.reports == s.reports
            && (p in s'.calls ==> Creating(s'.calls[p]))
  {
    hide TheHash;
  }

  lemma JoinFrame(s: System, p: nat, luck: Luck)
    requires p in s.calls && !Creating(s.calls[p]) && !Deciding(s.calls[p]) && !Reading(s.calls[p])
    ensures var s' := JoinStep(s, p, s.calls[p], luck);
            OthersSame(s, s', p) && s'.successes == s.successes && s'.reports == s.reports
            && (p in s'.calls ==> !s'.calls[p].MarkDecided? && !s'.calls[p].ReadExpire?)
  {
    hide TheHash, PastExpiry, ExpireRow;
  }

  lemma DecideFrame(s: System, p: nat, luck: Luck)
    requires p in s.calls && Deciding(s.calls[p])
    ensures var s' := DecideStep(s, p, s.calls[p], luck);
            OthersSame(s, s', p) && (s.calls[p].MarkDecided? || s'.successes == s.successes) && s'.reports == s.reports
            && (p in s'.calls ==> !s'.calls[p].ReadExpire? && (s'.calls[p].MarkDecided? ==> s.calls[p].DecideTx?))
  {
    hide TheHash, PastExpiry, ExpireRow;
  }

  lemma ReadFrame(s: System, p: nat, luck: Luck)
    requires p in s.calls && Reading(s.calls[p])
    ensures var s' := ReadStep(s, p, s.calls[p], luck);
            OthersSame(s, s', p) && s'.successes == s.successes
            && (p in s'.calls ==> s'.calls[p].ReadAudit? || (s'.calls[p].ReadExpire? && s.calls[p].ReadAudit?))
  {
    hide PastExpiry, ExpireRow;
  }

  /** Where marks, lazy expiries, successes and reports come from. */
  lemma WhereFrom(s: System, m: Move)
    requires Enabled(s, m)
    ensures var s' := Apply(s, m);
            (forall q :: q in s'.calls && s'.calls[q].MarkDecided? ==>
               (q in s.calls && s'.calls[q] == s.calls[q]) || (m.Step? && s.calls[m.p].DecideTx?))
            && (forall q :: q in s'.calls && s'.calls[q].ReadExpire? ==>
                  (q in s.calls && s'.calls[q] == s.calls[q]) || (m.Step? && s.calls[m.p].ReadAudit?))
            && (!(m.Step? && s.calls[m.p].MarkDecided?) ==> s'.successes == s.successes)
            && (!(m.Step? && Reading(s.calls[m.p])) ==> s'.reports == s.reports)
  {
    hide CreateStep, JoinStep, DecideStep, ReadStep;
    if m.Step? {
      var c := s.calls[m.p];
      if Creating(c) { CreateFrame(s, m.p, m.luck); }
      else if Deciding(c) { DecideFrame(s, m.p, m.luck); }
      else if Reading(c) { ReadFrame(s, m.p, m.luck); }
      else { JoinFrame(s, m.p, m.luck); }
    }
  }

  /** A late pending row can only expire. */
  lemma LateRow(s: System, m: Move)
    requires Enabled(s, m) && Is(s.pg, Pending) && s.pg.value.expiresAt <= s.now
    ensures Is(Apply(s, m).pg, Pending) || Is(Apply(s, m).pg, Expired)
    ensures s.now <= Apply(s, m).now
  {
    hide PastExpiry, TheHash;
  }

  lemma DecisionTaken(s: System, p: nat, luck: Luck)
    requires p in s.calls && (s.calls[p].DecideTx? || s.calls[p].MarkDecided?)
    requires DecisionsOk(s.pg, s.calls, s.successes)
    ensures var s' := DecideStep(s, p, s.calls[p], luck); DecisionsOk(s'.pg, s'.calls, s'.successes)
  {
    hide TheHash;
  }

  lemma DecisionsKept(s: System, m: Move)
    requires DecisionsOk(s.pg, s.calls, s.successes) && Enabled(s, m)
    ensures DecisionsOk(Apply(s, m).pg, Apply(s, m).calls, Apply(s, m).successes)
  {
    if m.Step? && (s.calls[m.p].DecideTx? || s.calls[m.p].MarkDecided?) {
      hide DecisionsOk, DecideStep;
      DecisionTaken(s, m.p, m.luck);
    } else {
      WhereFrom(s, m);
      RowKeeps(s, m);
      hide Apply, Enabled;
    }
  }

  lemma LateReadsKept(s: System, m: Move)
    requires LateReads(s.pg, s.calls, s.now) && Enabled(s, m)
    ensures LateReads(Apply(s, m).pg, Apply(s, m).calls, Apply(s, m).now)
  {
    if m.Step? && s.calls[m.p].ReadAudit? {
      hide PastExpiry, TheHash;
    } else {
      WhereFrom(s, m);
      RowKeeps(s, m);
      if Is(s.pg, Pending) && s.pg.value.expiresAt <= s.now { LateRow(s, m); }
      assert s.now <= Apply(s, m).now;
      hide Apply, Enabled;
    }
  }

  lemma ReportMade(s: System, p: nat, luck: Luck)
    requires p in s.calls && Reading(s.calls[p])
    requires ReportsOk(s.pg, s.reports) && LiveOk(s.pg, s.rd) && LateReads(s.pg, s.calls, s.now)
    ensures var s' := ReadStep(s, p, s.calls[p], luck); ReportsOk(s'.pg, s'.reports)
  {
    hide PastExpiry;
  }

  lemma ReportsKept(s: System, m: Move)
    requires ReportsOk(s.pg, s.reports) && LiveOk(s.pg, s.rd) && LateReads(s.pg, s.calls, s.now) && Enabled(s, m)
    ensures ReportsOk(Apply(s, m).pg, Apply(s, m).reports)
  {
    if m.Step? && Reading(s.calls[m.p]) {
      hide ReportsOk, ReadStep;
      ReportMade(s, m.p, m.luck);
    } else {
      WhereFrom(s, m);
      RowKeeps(s, m);
      hide Apply, Enabled, LiveOk, LateReads;
    }
  }

  lemma InvKept(s: System, m: Move)
    requires Inv(s) && Enabled(s, m)
    ensures Inv(Apply(s, m))
  {
    hide AuditOk, LiveOk, DecisionsOk, LateReads, ReportsOk, Apply, Enabled;
    AuditKept(s, m);
    LiveKept(s, m);
    DecisionsKept(s, m);
    LateReadsKept(s, m);
    ReportsKept(s, m);
  }

  // --- every run --------------------------------------------------------------------------------

  ghost predicate Run(states: seq<System>, moves: seq<Move>) {
    |states| == |moves| + 1 && states[0] == START
    && forall i :: 0 <= i < |moves| ==> Enabled(states[i], moves[i]) && states[i + 1] == Apply(states[i], moves[i])
  }

  lemma StartInv()
    ensures Inv(START)
  {
  }

  lemma {:induction false} RunKeepsInv(states: seq<System>, moves: seq<Move>)
    requires Run(states, moves)
    ensures Inv(states[|moves|])
  {
    hide Inv, Enabled, Apply;
    if moves == [] {
      StartInv();
    } else {
      var n := |moves| - 1;
      RunKeepsInv(states[..n + 1], moves[..n]);
      InvKept(states[n], moves[n]);
    }
  }

  /** Over every interleaving, with failures, lost answers, crashes and key loss anywhere: at most one grant; the audit
      row is approved exactly when that grant exists; the granted key is the recorded join key, and at most one join
      is ever recorded. */
  lemma OneGrant(states: seq<System>, moves: seq<Move>)
    requires Run(states, moves)
    ensures var s := states[|moves|];
            |s.grants| <= 1 && |s.recorded| <= 1
            && (Is(s.pg, Approved) <==> |s.grants| == 1)
            && (s.grants != [] ==> s.recorded == [s.grants[0].key]
                                   && s.pg.value.joinKey == Some(s.grants[0].key)
                                   && s.pg.value.granter == s.grants[0].granter)
            && (s.recorded != [] ==> s.pg.Some? && s.pg.value.joinKey == Some(s.recorded[0]))
  {
    hide LiveOk, DecisionsOk, LateReads, ReportsOk, Enabled, Apply;
    RunKeepsInv(states, moves);
  }

  /** At most one decision returns success, and what it decided is what the audit row says. */
  lemma OneDecision(states: seq<System>, moves: seq<Move>)
    requires Run(states, moves)
    ensures var s := states[|moves|];
            |s.successes| <= 1
            && (s.successes != [] ==> Is(s.pg, Decided(s.successes[0])) && (s.successes[0] <==> |s.grants| == 1))
  {
    hide LiveOk, LateReads, ReportsOk, Enabled, Apply;
    RunKeepsInv(states, moves);
  }

  /** Redis never runs ahead of Postgres, and a read that reports approved, rejected or expired reports what the
      audit row says from then on. */
  lemma RedisFollowsPostgres(states: seq<System>, moves: seq<Move>)
    requires Run(states, moves)
    ensures var s := states[|moves|];
            (s.rd.Some? && s.rd.value.status == Some(Approved) ==> Is(s.pg, Approved))
            && (s.rd.Some? && s.rd.value.status == Some(Rejected) ==> Is(s.pg, Rejected))
            && (forall r :: r in s.reports && (r == Approved || r == Rejected || r == Expired) ==> Is(s.pg, r))
  {
    hide AuditOk, DecisionsOk, LateReads, Enabled, Apply;
    RunKeepsInv(states, moves);
  }

  lemma KeepsTransitive(a: Option<Row>, b: Option<Row>, c: Option<Row>)
    requires Keeps(a, b) && Keeps(b, c)
    ensures Keeps(a, c)
  {
  }

  /** Once settled, the audit row is frozen for the rest of the run, and so are its recorded join and its expiry. */
  lemma {:induction false} SettledIsFrozen(states: seq<System>, moves: seq<Move>, i: nat)
    requires Run(states, moves) && i <= |moves|
    ensures Keeps(states[i].pg, states[|moves|].pg)
  {
    hide Enabled, Apply;
    if i < |moves| {
      var n := |moves| - 1;
      SettledIsFrozen(states[..n + 1], moves[..n], i);
      hide Keeps;
      RowKeeps(states[n], moves[n]);
      KeepsTransitive(states[i].pg, states[n].pg, states[n + 1].pg);
    }
  }

  /** A mismatching key, or an approval before any join, ends the call and changes neither store: the session stays
      open for a retry. Only a settled or late row makes a failed decision kill the live entry. */
  lemma MismatchChangesNothing(s: System, p: nat, luck: Luck)
    requires p in s.calls && s.calls[p].DecideTx? && s.calls[p].approve && Is(s.pg, Pending)
             && s.now < s.pg.value.expiresAt
    requires s.calls[p].key == "" || s.pg.value.joinKey != Some(s.calls[p].key)
    ensures Apply(s, Step(p, luck)) == s.(calls := s.calls - {p})
  {
  }

  /** The mark that kills the live entry is the next step of a decision exactly when Postgres found the row settled or
      late and its answer came back. */
  lemma DeadMarkIff(s: System, p: nat, luck: Luck)
    requires p in s.calls && s.calls[p].DecideTx?
    ensures var s' := Apply(s, Step(p, luck));
            (p in s'.calls && s'.calls[p].MarkDead?) <==>
              s.pg.Some? && luck == Works && (s.pg.value.status != Pending || s.pg.value.expiresAt <= s.now)
  {
    hide TheHash;
  }

  /** A decision nobody interferes with takes effect in both stores and returns success exactly when the live entry is
      absent or pending and in time, the row is pending and in time, and an approval names the recorded join key. */
  lemma UndisturbedDecision(s: System, p: nat, approve: bool, key: string, granter: string)
    requires Inv(s) && p in s.calls && s.calls[p] == DecideCheck(approve, key, granter)
    ensures var s1 := Advance(s, p, Works);
            var s2 := if p in s1.calls then Advance(s1, p, Works) else s1;
            var s3 := if p in s2.calls then Advance(s2, p, Works) else s2;
            var open := (s.rd.Some? ==> s.rd.value.status == Some(Pending) && !PastExpiry(s.rd.value, s.now))
                        && Is(s.pg, Pending) && s.now < s.pg.value.expiresAt
                        && (approve ==> key != "" && s.pg.value.joinKey == Some(key));
            p !in s3.calls
            && (open <==> s3.successes == s.successes + [approve])
            && (open ==> Is(s3.pg, Decided(approve)) && s3.rd.Some? && s3.rd.value.status == Some(Decided(approve))
                         && s3.grants == if approve then [Grant(key, granter)] else [])
            && (!open ==> s3.successes == s.successes && s3.grants == s.grants)
  {
    hide DecisionsOk, LateReads, ReportsOk, LiveOk, PastExpiry, CreateStep, JoinStep, ReadStep;
  }

  // --- calls nobody interferes with -------------------------------------------------------------

  /** The call goes on, each step working, for as long as it lives, at most `steps` steps. */
  function Alone(s: System, p: nat, steps: nat): System
    decreases steps
  {
    if steps == 0 || p !in s.calls then s else Alone(Advance(s, p, Works), p, steps - 1)
  }

  lemma AloneStep(s: System, p: nat, steps: nat)
    requires p in s.calls && steps > 0
    ensures Alone(s, p, steps) == Alone(Advance(s, p, Works), p, steps - 1)
  {
  }

  lemma AloneEnds(s: System, p: nat, steps: nat)
    requires p !in s.calls
    ensures Alone(s, p, steps) == s
  {
  }

  lemma {:induction false} AloneSum(s: System, p: nat, a: nat, b: nat)
    ensures Alone(s, p, a + b) == Alone(Alone(s, p, a), p, b)
    decreases a
  {
    hide Advance;
    if a > 0 && p in s.calls {
      AloneSum(Advance(s, p, Works), p, a - 1, b);
    } else if p !in s.calls {
      AloneEnds(s, p, a);
      AloneEnds(s, p, b);
    }
  }

  /** The live entry lets a join pass: it is gone, or pending, in time and not latched. */
  predicate EntryOpen(rd: Option<Hash>, now: int) {
    rd.Some? ==>
      rd.value.status == Some(Pending) && rd.value.expiresAt.Some? && now < rd.value.expiresAt.value
      && rd.value.joinReq == None
  }

  /** The row can take a join: it is pending, in time and without one. */
  predicate RowOpen(pg: Option<Row>, now: int) {
    pg.Some? && pg.value.status == Pending && now < pg.value.expiresAt
    && pg.value.joinKey == None && pg.value.joinReq == None
  }

  /** A pending row whose time is over has become expired, any other is as it was. */
  predicate Lapsed(pg: Option<Row>, pg': Option<Row>, now: int) {
    pg' == if pg.Some? && pg.value.status == Pending && pg.value.expiresAt <= now
           then Some(pg.value.(status := Expired)) else pg
  }

  /** How the Postgres half of a join goes on. */
  lemma JoinStepsAlone(s: System, p: nat, key: string, req: string, live: bool)
    requires p in s.calls
    ensures s.calls[p] == JoinRead(key, req, live) ==>
              Advance(s, p, Works) ==
                if RowOpen(s.pg, s.now) then s.(calls := s.calls[p := JoinWrite(key, req, live)])
                else if Is(s.pg, Pending) && s.pg.value.expiresAt <= s.now
                then s.(calls := s.calls[p := JoinExpire(live)])
                else if live then s.(calls := s.calls[p := MarkDead]) else s.(calls := s.calls - {p})
    ensures s.calls[p] == JoinWrite(key, req, live) && RowOpen(s.pg, s.now) ==>
              Advance(s, p, Works) ==
                s.(pg := Some(s.pg.value.(joinKey := Some(key), joinReq := Some(req))), recorded := s.recorded + [key],
                   calls := s.calls - {p})
    ensures s.calls[p] == JoinExpire(live) && Is(s.pg, Pending) ==>
              Advance(s, p, Works) ==
                s.(pg := Some(s.pg.value.(status := Expired)),
                   calls := if live then s.calls[p := MarkDead] else s.calls - {p})
    ensures s.calls[p] == MarkDead ==>
              Advance(s, p, Works) == s.(rd := Some(TheHash(s).(status := Some(Consumed))), calls := s.calls - {p})
  {
    hide CreateStep, ReadStep, PastExpiry;
  }

  /** The Postgres half of a join, once the live entry has been passed. */
  lemma JoinRecords(s: System, p: nat, key: string, req: string, live: bool)
    requires p in s.calls && s.calls[p] == JoinRead(key, req, live) && key != "" && req != ""
    ensures var t := Alone(s, p, 3);
            p !in t.calls
            && (RowOpen(s.pg, s.now) ==>
                  t.pg == Some(s.pg.value.(joinKey := Some(key), joinReq := Some(req)))
                  && t.recorded == s.recorded + [key] && t.rd == s.rd)
            && (!RowOpen(s.pg, s.now) ==>
                  t.recorded == s.recorded && Lapsed(s.pg, t.pg, s.now)
                  && t.rd == (if live then Some(TheHash(s).(status := Some(Consumed))) else s.rd))
  {
    AloneUnrolled(s, p);
    hide Alone, Advance;
    JoinStepsAlone(s, p, key, req, live);
    var s1 := Advance(s, p, Works);
    if p in s1.calls {
      JoinStepsAlone(s1, p, key, req, live);
      var s2 := Advance(s1, p, Works);
      if p in s2.calls { JoinStepsAlone(s2, p, key, req, live); }
    }
  }

  lemma AloneUnrolled(s: System, p: nat)
    requires p in s.calls
    ensures var s1 := Advance(s, p, Works);
            var s2 := if p in s1.calls then Advance(s1, p, Works) else s1;
            var s3 := if p in s2.calls then Advance(s2, p, Works) else s2;
            Alone(s, p, 3) == s3
  {
    hide Advance;
    var s1 := Advance(s, p, Works);
    AloneStep(s, p, 3);
    if p in s1.calls {
      AloneStep(s1, p, 2);
      var s2 := Advance(s1, p, Works);
      if p in s2.calls { AloneStep(s2, p, 1); }
    }
  }

  lemma CallsOverwritten(calls: map<nat, Call>, p: nat, a: Call, b: Call, c: Call)
    ensures calls[p := a][p := b][p := c] == calls[p := c]
  {
  }

  lemma JoinPasses(s: System, p: nat, key: string, req: string)
    requires p in s.calls && s.calls[p] == JoinCheck(key, req) && key != "" && req != ""
    ensures s.rd == None ==>
              Alone(s, p, 1) == s.(calls := s.calls[p := JoinRead(key, req, false)])
    ensures s.rd.Some? && EntryOpen(s.rd, s.now) ==>
              Alone(s, p, 3) == s.(calls := s.calls[p := JoinRead(key, req, true)],
                                   rd := Some(s.rd.value.(joinReq := Some(req), joinPub := Some(key))))
    ensures !EntryOpen(s.rd, s.now) ==> Alone(s, p, 1) == s.(calls := s.calls - {p})
  {
    AloneUnrolled(s, p);
    AloneStep(s, p, 1);
    hide CreateStep, DecideStep, ReadStep, Alone;
    CallsOverwritten(s.calls, p, JoinLatch(key, req), JoinFields(key, req), JoinRead(key, req, true));
  }

  /** A join nobody interferes with is recorded, both its values in both stores and neither crossed, exactly when
      they are filled and the live entry and the row are open. Refused by the live entry it changes nothing; refused
      by the row it closes the live entry. */
  lemma UndisturbedJoin(s: System, p: nat, key: string, req: string)
    requires p in s.calls && s.calls[p] == JoinCheck(key, req)
    ensures var t := Alone(s, p, 6);
            var passes := key != "" && req != "" && EntryOpen(s.rd, s.now);
            p !in t.calls
            && (passes && RowOpen(s.pg, s.now) ==>
                  t.pg == Some(s.pg.value.(joinKey := Some(key), joinReq := Some(req)))
                  && t.recorded == s.recorded + [key]
                  && t.rd ==
                     (if s.rd.Some? then Some(s.rd.value.(joinReq := Some(req), joinPub := Some(key))) else None))
            && (passes && !RowOpen(s.pg, s.now) ==>
                  t.recorded == s.recorded && Lapsed(s.pg, t.pg, s.now)
                  && (s.rd.Some? ==> t.rd.Some? && t.rd.value.status == Some(Consumed))
                  && (s.rd == None ==> t.rd == None))
            && (!passes ==> t == s.(calls := s.calls - {p}))
  {
    if key == "" || req == "" {
      AloneStep(s, p, 6);
      AloneEnds(Done(s, p), p, 5);
    } else {
      JoinPasses(s, p, key, req);
      hide Advance, Alone;
      if s.rd == None {
        var s1 := Alone(s, p, 1);
        AloneSum(s, p, 1, 5);
        AloneSum(s1, p, 3, 2);
        JoinRecords(s1, p, key, req, false);
        AloneEnds(Alone(s1, p, 3), p, 2);
      } else if EntryOpen(s.rd, s.now) {
        var s3 := Alone(s, p, 3);
        AloneSum(s, p, 3, 3);
        JoinRecords(s3, p, key, req, true);
      } else {
        AloneSum(s, p, 1, 5);
        AloneEnds(Alone(s, p, 1), p, 5);
      }
    }
  }

  /** How a create goes on. */
  lemma CreateStepsAlone(s: System, p: nat, t: int)
    requires p in s.calls
    ensures s.calls[p] == CreateRow(t) ==>
              Advance(s, p, Works) ==
                if s.pg.Some? then s.(calls := s.calls - {p})
                else s.(pg := Some(Row(Pending, t, None, None, "")), calls := s.calls[p := CreateLatch(t)])
    ensures s.calls[p] == CreateLatch(t) ==>
              Advance(s, p, Works) ==
                if t <= s.now || (s.rd.Some? && s.rd.value.status.Some?) then s.(calls := s.calls - {p})
                else s.(rd := Some(TheHash(s).(status := Some(Pending))), calls := s.calls[p := CreateFields(t)])
    ensures s.calls[p] == CreateFields(t) ==>
              Advance(s, p, Works) ==
                s.(rd := Some(TheHash(s).(status := Some(Pending), expiresAt := Some(Seconds(t)))),
                   calls := s.calls - {p})
  {
    hide JoinStep, DecideStep, ReadStep, TheHash, Seconds;
  }

  lemma SecondsAre(t: int)
    ensures Seconds(t) % 1000 == 0 && Seconds(t) <= t < Seconds(t) + 1000
  {
  }

  /** A create nobody interferes with makes the pending row, with its expiry, if there is none; and with it the live
      entry, which keeps whole seconds, unless the time is over or an entry is already there. */
  lemma UndisturbedCreate(s: System, p: nat, expiresAt: int)
    requires p in s.calls && s.calls[p] == CreateRow(expiresAt)
    ensures var t := Alone(s, p, 3);
            p !in t.calls
            && (s.pg.Some? ==> t.pg == s.pg && t.rd == s.rd)
            && (s.pg == None ==> t.pg == Some(Row(Pending, expiresAt, None, None, "")))
            && (s.pg == None && (expiresAt <= s.now || (s.rd.Some? && s.rd.value.status.Some?)) ==> t.rd == s.rd)
            && (s.pg == None && s.now < expiresAt && (s.rd == None || s.rd.value.status == None) ==>
                  t.rd.Some? && t.rd.value.status == Some(Pending) && t.rd.value.expiresAt.Some?
                  && t.rd.value.expiresAt.value % 1000 == 0
                  && t.rd.value.expiresAt.value <= expiresAt < t.rd.value.expiresAt.value + 1000)
  {
    AloneUnrolled(s, p);
    SecondsAre(expiresAt);
    hide Alone, Advance, Seconds;
    CreateStepsAlone(s, p, expiresAt);
    var s1 := Advance(s, p, Works);
    if p in s1.calls {
      CreateStepsAlone(s1, p, expiresAt);
      var s2 := Advance(s1, p, Works);
      if p in s2.calls { CreateStepsAlone(s2, p, expiresAt); }
    }
  }

  /** How a read goes on. */
  lemma ReadStepsAlone(s: System, p: nat)
    requires p in s.calls
    ensures s.calls[p] == ReadLive ==>
              var s' := Advance(s, p, Works);
              s'.pg == s.pg && s'.rd == s.rd && s'.now == s.now
              && (if s.rd == None then s'.reports == s.reports && p in s'.calls && s'.calls[p] == ReadAudit
                  else p !in s'.calls && s'.reports == s.reports + LiveReport(s.rd.value, s.now))
    ensures s.calls[p] == ReadAudit ==>
              var s' := Advance(s, p, Works);
              s'.pg == s.pg && s'.rd == s.rd && s'.now == s.now
              && (if s.pg == None then p !in s'.calls && s'.reports == s.reports
                  else if s.pg.value.status == Pending && s.pg.value.expiresAt <= s.now
                  then p in s'.calls && s'.calls[p] == ReadExpire && s'.reports == s.reports
                  else p !in s'.calls && s'.reports == s.reports + [s.pg.value.status])
    ensures s.calls[p] == ReadExpire && Is(s.pg, Pending) ==>
              var s' := Advance(s, p, Works);
              s'.pg == Some(s.pg.value.(status := Expired)) && s'.rd == s.rd && p !in s'.calls
              && s'.reports == s.reports + [Expired]
  {
    hide CreateStep, DecideStep, JoinStep;
  }

  /** Nothing for an entry without a status or a pending one whose time is over or missing, else its status. */
  function LiveReport(h: Hash, now: int): seq<Status> {
    if h.status == None || (h.status == Some(Pending) && (h.expiresAt == None || h.expiresAt.value <= now)) then []
    else [h.status.value]
  }

  /** What a read nobody interferes with reports: the live entry's status, unless that is missing, or pending and
      over; or, with no live entry, the row's status, an overdue pending row becoming expired on the way. */
  lemma UndisturbedRead(s: System, p: nat)
    requires p in s.calls && s.calls[p] == ReadLive
    ensures var t := Alone(s, p, 3);
            p !in t.calls && t.rd == s.rd
            && (s.rd.Some? ==>
                  t.pg == s.pg
                  && t.reports == s.reports + LiveReport(s.rd.value, s.now))
            && (s.rd == None && s.pg == None ==> t.pg == s.pg && t.reports == s.reports)
            && (s.rd == None && s.pg.Some? ==>
                  Lapsed(s.pg, t.pg, s.now) && t.reports == s.reports + [t.pg.value.status])
  {
    AloneUnrolled(s, p);
    hide Alone, Advance;
    ReadStepsAlone(s, p);
    var s1 := Advance(s, p, Works);
    if p in s1.calls {
      ReadStepsAlone(s1, p);
      var s2 := Advance(s1, p, Works);
      if p in s2.calls { ReadStepsAlone(s2, p); }
    }
  }

  // --- where joins come from --------------------------------------------------------------------

  datatype Joining = Joining(key: string, req: string)

  /** The joins that have begun. */
  function Begun(moves: seq<Move>): set<Joining> {
    set i | 0 <= i < |moves| && moves[i].Begin? && moves[i].call.JoinCheck? ::
      Joining(moves[i].call.key, moves[i].call.req)
  }

  predicate CarriesJoin(c: Call) { c.JoinCheck? || c.JoinLatch? || c.JoinFields? || c.JoinRead? || c.JoinWrite? }

  ghost predicate CallsFrom(calls: map<nat, Call>, joins: set<Joining>) {
    forall p :: p in calls && CarriesJoin(calls[p]) ==> Joining(calls[p].key, calls[p].req) in joins
  }

  predicate RowFrom(pg: Option<Row>, joins: set<Joining>) {
    pg.Some? && (pg.value.joinKey.Some? || pg.value.joinReq.Some?) ==>
      pg.value.joinKey.Some? && pg.value.joinReq.Some?
      && Joining(pg.value.joinKey.value, pg.value.joinReq.value) in joins
  }

  ghost predicate EntryFrom(rd: Option<Hash>, joins: set<Joining>) {
    rd.Some? ==>
      (rd.value.joinReq.Some? ==> exists j :: j in joins && j.req == rd.value.joinReq.value)
      && (rd.value.joinPub.Some? ==> exists j :: j in joins && j.key == rd.value.joinPub.value)
  }

  ghost predicate FromJoins(s: System, joins: set<Joining>) {
    CallsFrom(s.calls, joins) && RowFrom(s.pg, joins) && EntryFrom(s.rd, joins)
  }

  /** What one step of a join can do. */
  lemma JoinEffect(s: System, p: nat, luck: Luck)
    requires p in s.calls && !Creating(s.calls[p]) && !Deciding(s.calls[p]) && !Reading(s.calls[p])
    ensures var c, s' := s.calls[p], JoinStep(s, p, s.calls[p], luck);
            (p in s'.calls && CarriesJoin(s'.calls[p]) ==>
               CarriesJoin(c) && s'.calls[p].key == c.key && s'.calls[p].req == c.req)
            && (s'.pg == s.pg || s'.pg == ExpireRow(s.pg)
                || (CarriesJoin(c) && s.pg.Some?
                    && s'.pg == Some(s.pg.value.(joinKey := Some(c.key), joinReq := Some(c.req)))))
            && (s'.rd == s.rd
                || (CarriesJoin(c) && (s'.rd == Some(TheHash(s).(joinReq := Some(c.req)))
                                       || s'.rd == Some(TheHash(s).(joinPub := Some(c.key))))))
  {
    hide PastExpiry;
  }

  /** The stored joins and the calls that carry one are as they were. */
  ghost predicate JoinsSame(s: System, s': System) { NoCallJoins(s, s') && StoredJoinsSame(s, s') }

  ghost predicate NoCallJoins(s: System, s': System) {
    forall p :: p in s'.calls && CarriesJoin(s'.calls[p]) ==> p in s.calls && s'.calls[p] == s.calls[p]
  }

  predicate StoredJoinsSame(s: System, s': System) {
    (s'.pg.Some? ==>
       s'.pg.value.joinKey == (if s.pg.Some? then s.pg.value.joinKey else None)
       && s'.pg.value.joinReq == (if s.pg.Some? then s.pg.value.joinReq else None))
    && (s'.rd.Some? ==> s'.rd.value.joinReq == TheHash(s).joinReq && s'.rd.value.joinPub == TheHash(s).joinPub)
  }

  lemma CreateNoJoin(s: System, p: nat, luck: Luck)
    requires p in s.calls && Creating(s.calls[p])
    ensures JoinsSame(s, CreateStep(s, p, s.calls[p], luck))
  {
  }

  lemma DecideStoredJoins(s: System, p: nat, luck: Luck)
    requires p in s.calls && Deciding(s.calls[p])
    ensures StoredJoinsSame(s, DecideStep(s, p, s.calls[p], luck))
  {
    hide PastExpiry, Decided;
  }

  lemma DecideNoJoin(s: System, p: nat, luck: Luck)
    requires p in s.calls && Deciding(s.calls[p])
    ensures JoinsSame(s, DecideStep(s, p, s.calls[p], luck))
  {
    DecideStoredJoins(s, p, luck);
    hide StoredJoinsSame, PastExpiry, Decided, TheHash, ExpireRow, SetStatus;
  }

  lemma ReadNoJoin(s: System, p: nat, luck: Luck)
    requires p in s.calls && Reading(s.calls[p])
    ensures JoinsSame(s, ReadStep(s, p, s.calls[p], luck))
  {
    hide PastExpiry;
  }

  /** No step of another kind touches a join, and a begin carries only its own. */
  lemma OtherNoJoin(s: System, m: Move)
    requires Enabled(s, m) && !(m.Step? && !Creating(s.calls[m.p]) && !Deciding(s.calls[m.p]) && !Reading(s.calls[m.p]))
    ensures m.Begin? || JoinsSame(s, Apply(s, m))
  {
    hide CreateStep, JoinStep, DecideStep, ReadStep;
    if m.Step? {
      if Creating(s.calls[m.p]) { CreateNoJoin(s, m.p, m.luck); }
      else if Deciding(s.calls[m.p]) { DecideNoJoin(s, m.p, m.luck); }
      else { ReadNoJoin(s, m.p, m.luck); }
      hide JoinsSame;
    }
  }

  lemma FromJoinsKept(s: System, m: Move, joins: set<Joining>, joins': set<Joining>)
    requires FromJoins(s, joins) && Enabled(s, m) && joins <= joins'
    requires m.Begin? && m.call.JoinCheck? ==> Joining(m.call.key, m.call.req) in joins'
    ensures FromJoins(Apply(s, m), joins')
  {
    if m.Step? && !Creating(s.calls[m.p]) && !Deciding(s.calls[m.p]) && !Reading(s.calls[m.p]) {
      JoinEffect(s, m.p, m.luck);
      JoinFrame(s, m.p, m.luck);
      hide JoinStep;
    } else {
      OtherNoJoin(s, m);
      if !m.Begin? { hide Apply, Enabled; }
    }
  }

  lemma {:induction false} RunFromJoins(states: seq<System>, moves: seq<Move>)
    requires Run(states, moves)
    ensures FromJoins(states[|moves|], Begun(moves))
  {
    hide FromJoins, Enabled, Apply;
    if moves == [] {
      StartFromJoins();
      assert Begun(moves) == {};
    } else {
      var n := |moves| - 1;
      RunFromJoins(states[..n + 1], moves[..n]);
      forall j | j in Begun(moves[..n]) ensures j in Begun(moves) {
        var i :| 0 <= i < n && moves[..n][i].Begin? && moves[..n][i].call.JoinCheck?
                 && j == Joining(moves[..n][i].call.key, moves[..n][i].call.req);
        assert moves[i] == moves[..n][i];
      }
      FromJoinsKept(states[n], moves[n], Begun(moves[..n]), Begun(moves));
    }
  }

  lemma StartFromJoins()
    ensures FromJoins(START, {})
  {
  }

  /** Over every run the recorded join, its key and its request id both, is one that a caller began, and so is the key
      that a grant carries; what the live entry holds comes from joins that began, too. */
  lemma JoinsAreCallers(states: seq<System>, moves: seq<Move>)
    requires Run(states, moves)
    ensures var s, begun := states[|moves|], Begun(moves);
            (forall key :: key in s.recorded ==>
               s.pg.Some? && s.pg.value.joinKey == Some(key) && s.pg.value.joinReq.Some?
               && Joining(key, s.pg.value.joinReq.value) in begun)
            && (forall g :: g in s.grants ==> exists j :: j in begun && j.key == g.key)
            && (s.rd.Some? && s.rd.value.joinReq.Some? ==> exists j :: j in begun && j.req == s.rd.value.joinReq.value)
            && (s.rd.Some? && s.rd.value.joinPub.Some? ==> exists j :: j in begun && j.key == s.rd.value.joinPub.value)
  {
    hide Enabled, Apply, LiveOk, DecisionsOk, LateReads, ReportsOk, Begun;
    RunKeepsInv(states, moves);
    RunFromJoins(states, moves);
  }

  // --- mismatched approvals around a matching one -----------------------------------------------

  /** What may happen around call `p`, which approves under the recorded key: approvals under other keys begin and take
      their steps with any luck, the live entry may vanish, calls may die, time may pass; the calls `olds` are idle. */
  predicate Around(m: Move, p: nat, key: string, olds: set<nat>, until: int) {
    match m
    case Tick(now) => now < until
    case Begin(q, c) => q != p && c.DecideCheck? && c.approve && c.key != key
    case Step(q, luck) => if q == p then luck == Works else q !in olds
    case KeyLoss => true
    case Crash(ps) => p !in ps
  }

  /** How many of the moves are steps of call `p`. */
  function Own(moves: seq<Move>, p: nat): nat {
    if moves == [] then 0
    else Own(moves[..|moves| - 1], p) + if moves[|moves| - 1].Step? && moves[|moves| - 1].p == p then 1 else 0
  }

  /** The session at `s` can still be approved, at any moment before `until`. */
  predicate Approvable(s: System, key: string, until: int) {
    key != "" && s.now < until && Is(s.pg, Pending) && until <= s.pg.value.expiresAt && s.pg.value.joinKey == Some(key)
    && (s.rd.Some? ==>
          s.rd.value.status == Some(Pending) && s.rd.value.expiresAt.Some? && until <= s.rd.value.expiresAt.value)
  }

  /** A call that approves under another key, or that found the row settled. */
  predicate Astray(c: Call, key: string, settled: bool) {
    ((c.DecideCheck? || c.DecideTx?) && c.approve && c.key != key) || (c.MarkDead? && settled)
  }

  ghost predicate AllAstray(calls: map<nat, Call>, p: nat, key: string, olds: set<nat>, settled: bool) {
    forall q :: q in calls && q != p && q !in olds ==> Astray(calls[q], key, settled)
  }

  /** Where the stores stand after `n` steps of call `p`. */
  predicate StoresAfter(s: System, t: System, key: string, granter: string, n: nat)
    requires s.pg.Some?
  {
    if n < 2 then t.pg == s.pg && t.grants == s.grants && t.successes == s.successes && (t.rd == None || t.rd == s.rd)
    else
      t.pg == Some(s.pg.value.(status := Approved, granter := granter)) && t.grants == s.grants + [Grant(key, granter)]
      && t.successes == s.successes + if n == 2 then [] else [true]
  }

  predicate CallAfter(calls: map<nat, Call>, p: nat, key: string, granter: string, n: nat) {
    match n
    case 0 => p in calls && calls[p] == DecideCheck(true, key, granter)
    case 1 => p in calls && calls[p] == DecideTx(true, key, granter)
    case 2 => p in calls && calls[p] == MarkDecided(true)
    case _ => p !in calls && n == 3
  }

  ghost predicate InStep(s: System, t: System, p: nat, key: string, granter: string, until: int, n: nat) {
    Approvable(s, key, until) && t.now < until && CallAfter(t.calls, p, key, granter, n)
    && StoresAfter(s, t, key, granter, n) && AllAstray(t.calls, p, key, s.calls.Keys, n >= 2)
  }

  lemma OwnStep(s: System, t: System, p: nat, key: string, granter: string, until: int, n: nat)
    requires InStep(s, t, p, key, granter, until, n) && p in t.calls
    ensures InStep(s, Advance(t, p, Works), p, key, granter, until, n + 1)
  {
    hide CreateStep, JoinStep, ReadStep;
  }

  lemma AstrayStep(s: System, t: System, p: nat, key: string, granter: string, until: int, n: nat, q: nat, luck: Luck)
    requires InStep(s, t, p, key, granter, until, n) && q in t.calls && q != p && q !in s.calls
    ensures InStep(s, Advance(t, q, luck), p, key, granter, until, n)
  {
    hide CreateStep, JoinStep, ReadStep, PastExpiry, ExpireRow, TheHash;
  }

  lemma AroundStep(s: System, t: System, p: nat, key: string, granter: string, until: int, n: nat, m: Move)
    requires InStep(s, t, p, key, granter, until, n) && Enabled(t, m) && Around(m, p, key, s.calls.Keys, until)
    requires p in s.calls
    ensures InStep(s, Apply(t, m), p, key, granter, until, if m.Step? && m.p == p then n + 1 else n)
  {
    if m.Step? {
      hide InStep, Advance;
      if m.p == p {
        OwnStep(s, t, p, key, granter, until, n);
      } else {
        AstrayStep(s, t, p, key, granter, until, n, m.p, m.luck);
      }
    }
  }

  /** A way for the system to go on around call `p`. */
  ghost predicate PathAround(states: seq<System>, moves: seq<Move>, p: nat, key: string, olds: set<nat>, until: int) {
    |states| == |moves| + 1
    && forall i :: 0 <= i < |moves| ==>
         Enabled(states[i], moves[i]) && states[i + 1] == Apply(states[i], moves[i])
         && Around(moves[i], p, key, olds, until)
  }

  lemma {:induction false} StaysInStep(
      states: seq<System>, moves: seq<Move>, p: nat, key: string, granter: string, until: int)
    requires |states| > 0 && PathAround(states, moves, p, key, states[0].calls.Keys, until)
    requires InStep(states[0], states[0], p, key, granter, until, 0)
    ensures InStep(states[0], states[|moves|], p, key, granter, until, Own(moves, p))
  {
    hide InStep, Enabled, Apply, Around;
    if moves != [] {
      var n := |moves| - 1;
      StaysInStep(states[..n + 1], moves[..n], p, key, granter, until);
      HasCall(states[0], p, key, granter, until);
      AroundStep(states[0], states[n], p, key, granter, until, Own(moves[..n], p), moves[n]);
    }
  }

  lemma HasCall(s: System, p: nat, key: string, granter: string, until: int)
    requires InStep(s, s, p, key, granter, until, 0)
    ensures p in s.calls
  {
  }

  /** From every reachable state with the session open and an approval under the recorded key about to start: however
      approvals under other keys interleave with it, whatever their luck, with key loss and crashes of others, its third
      step grants; until its second step they have changed nothing at all in Postgres. */
  lemma MismatchesCannotSpoil(
      before: seq<System>, played: seq<Move>, states: seq<System>, moves: seq<Move>, p: nat, key: string,
      granter: string, until: int)
    requires Run(before, played) && |states| > 0 && states[0] == before[|played|]
    requires var s := states[0];
             p in s.calls && s.calls[p] == DecideCheck(true, key, granter) && Approvable(s, key, until)
             && PathAround(states, moves, p, key, s.calls.Keys, until)
    ensures var s, t, n := states[0], states[|moves|], Own(moves, p);
            n <= 3 && (p in t.calls <==> n < 3)
            && (n < 2 ==> t.pg == s.pg && t.grants == [] && t.successes == [])
            && (n >= 2 ==> Is(t.pg, Approved) && t.grants == [Grant(key, granter)])
            && (n == 3 ==> t.successes == [true])
  {
    hide Enabled, Apply, Around;
    var s := states[0];
    RunKeepsInv(before, played);
    StaysInStep(states, moves, p, key, granter, until);
  }
}

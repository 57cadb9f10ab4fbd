/** Pending requests under concurrency: any number of input calls, approval calls and permission verdicts, each
    advancing one storage statement at a time, with sweeps, failures and crashes anywhere in between. */
module SingleResolve {
  import opened Prelude
  import opened Requests
  import opened Storage
  import Utf8

  // --- keys -------------------------------------------------------------------------------------

  predicate SafeChar(c: char) {
    '0' <= c <= '9' || 'a' <= c <= 'z' || 'A' <= c <= 'Z' || c == '-' || c == '_'
  }

  /** `exec::check_input_id`. */
  predicate Accepted(inputId: string) {
    inputId != "" && |Utf8.Bytes(inputId)| <= 128 && forall i :: 0 <= i < |inputId| ==> SafeChar(inputId[i])
  }

  /** The alphabet, one by one. */
  predicate Listed(c: char) {
    c in {
      '0', '1', '2', '3', '4', '5', '6', '7', '8', '9', 'a', 'b', 'c', 'd', 'e', 'f', 'g', 'h',
      'i', 'j', 'k', 'l', 'm', 'n', 'o', 'p', 'q', 'r', 's', 't', 'u', 'v', 'w', 'x', 'y', 'z',
      'A', 'B', 'C', 'D', 'E', 'F', 'G', 'H', 'I', 'J', 'K', 'L', 'M', 'N', 'O', 'P', 'Q', 'R',
      'S', 'T', 'U', 'V', 'W', 'X', 'Y', 'Z', '-', '_'
    }
  }

  lemma SafeTable(c: char)
    ensures SafeChar(c) <==> Listed(c)
  {
  }

  /** Accepted are exactly the ids of one to 128 characters, each a letter, a digit, a hyphen or an underscore. */
  lemma AcceptedIff(id: string)
    ensures Accepted(id) <==> 1 <= |id| <= 128 && forall i :: 0 <= i < |id| ==> Listed(id[i])
  {
    forall c: char ensures SafeChar(c) <==> Listed(c) { SafeTable(c); }
    hide SafeChar, Listed;
    if forall i :: 0 <= i < |id| ==> Listed(id[i]) {
      forall i | 0 <= i < |id| ensures id[i] < '\U{80}' { SafeIsAscii(id[i]); }
      Utf8.AsciiBytes(id);
    }
    hide Utf8.Bytes;
  }

  lemma SafeIsAscii(c: char)
    requires Listed(c)
    ensures c < '\U{80}'
  {
    SafeTable(c);
  }

  /** One phone input: a workflow and the id the phone chose. */
  datatype Ask = Ask(workflow: string, id: string)

  function StorageKey(input: Ask): string { "input:" + input.workflow + ":" + input.id }

  lemma SplitAtLastColon(w: string, i: string, w': string, i': string)
    requires ':' !in i && ':' !in i' && w + ":" + i == w' + ":" + i'
    ensures w == w' && i == i'
  {
    var t, t' := w + ":" + i, w' + ":" + i';
    assert t[|w|] == ':' && t'[|w'|] == ':';
    assert forall k :: |w| < k < |t| ==> t[k] == i[k - |w| - 1] && t[k] != ':';
    assert forall k :: |w'| < k < |t'| ==> t'[k] == i'[k - |w'| - 1] && t'[k] != ':';
    assert w == t[..|w|] && w' == t'[..|w'|] && i == t[|w| + 1..] && i' == t'[|w'| + 1..];
  }

  lemma AcceptedHasNoColon(id: string)
    requires Accepted(id)
    ensures ':' !in id
  {
    hide Utf8.Bytes;
  }

  /** Accepted ids never let two inputs share a row; the colon the alphabet leaves out is what it takes. */
  lemma StorageKeyInjective(a: Ask, b: Ask)
    ensures ':' !in a.id && ':' !in b.id && StorageKey(a) == StorageKey(b) ==> a == b
    ensures Accepted(a.id) && Accepted(b.id) && StorageKey(a) == StorageKey(b) ==> a == b
    ensures ':' in a.id ==> exists c: Ask :: c != a && StorageKey(c) == StorageKey(a)
  {
    hide Accepted;
    if StorageKey(a) == StorageKey(b) {
      assert StorageKey(a)[6..] == a.workflow + ":" + a.id && StorageKey(b)[6..] == b.workflow + ":" + b.id;
      if Accepted(a.id) && Accepted(b.id) {
        AcceptedHasNoColon(a.id);
        AcceptedHasNoColon(b.id);
      }
      if ':' !in a.id && ':' !in b.id {
        SplitAtLastColon(a.workflow, a.id, b.workflow, b.id);
      }
    }
    if ':' in a.id { ColonCollides(a); }
  }

  lemma ColonCollides(a: Ask)
    requires ':' in a.id
    ensures exists c: Ask :: c != a && StorageKey(c) == StorageKey(a)
  {
    var k :| 0 <= k < |a.id| && a.id[k] == ':';
    var c := Ask(a.workflow + ":" + a.id[..k], a.id[k + 1..]);
    assert a.id == a.id[..k] + ":" + a.id[k + 1..];
    ColonMoves("input:", a.workflow, a.id[..k], a.id[k + 1..]);
    assert StorageKey(c) == StorageKey(a);
    assert |c.id| < |a.id|;
  }

  lemma ColonMoves(p: string, w: string, x: string, y: string)
    ensures p + (w + ":" + x) + ":" + y == p + w + ":" + (x + ":" + y)
  {
  }

  // --- the system -------------------------------------------------------------------------------

  /** Which route a resolve comes from: an input through the router, or a verdict on an approval. */
  datatype Origin = Routed(input: Ask) | Verdict

  /** What a call does next. `Expiring`, `Resolving` and `Explaining` are the three statements of a resolve;
      the last three phases are only reached by the input call whose UPDATE took. */
  datatype Phase = Gate | Claiming | Expiring | Resolving | Explaining | Starting | RecordingStart | RecordingEnd

  /** How an input call's INSERT ended: it made the row, met it, or failed for a reason of its own. */
  datatype ClaimEnd = NoClaim | Inserted | Met | Refused

  /** `at` is the clock the resolve read before its first UPDATE; `saw` and `there` say whether the row was there at the
      first UPDATE and at a second one that changed nothing. */
  datatype Call = Call(
    origin: Origin, key: string, payload: string, phase: Phase, at: int, saw: bool, claim: ClaimEnd, there: bool)

  /** `at` is the stamp the row keeps, `when` the clock at the second UPDATE, which changed the row. */
  datatype Win = Win(key: string, payload: string, at: int, when: int, saw: bool, origin: Origin)

  datatype Reply = Delivered(input: Ask) | Duplicate(input: Ask, there: bool)

  datatype Record = Record(input: Ask, completed: bool)

  /** Durable tables, the calls in memory, and logs of what happened: successful resolves, commands started,
      ring records, replies; `lost` are inputs confirmed by a call that then died before starting the command. */
  datatype System = System(
    now: int, workflows: map<string, Provider>, table: Table, calls: map<nat, Call>, wins: seq<Win>,
    starts: seq<Ask>, records: seq<Record>, replies: seq<Reply>, lost: set<Ask>)

  const START := System(0, map[], map[], map[], [], [], [], [], {})

  datatype Move =
    | Tick(now: int)
    | NewWorkflow(id: string, provider: Provider)
    | AskApproval(key: string, workflow: string, createdAt: int, expiresAt: int)
    | Sweep(at: int)
    | BeginInput(p: nat, input: Ask)
    | BeginVerdict(p: nat, key: string, payload: string)
    | PassGate(p: nat)
    | Claim(p: nat, works: bool)
    | Expire(p: nat)
    | ResolveRow(p: nat)
    | ExplainRow(p: nat)
    | StartCommand(p: nat)
    | RecordStart(p: nat)
    | RecordEnd(p: nat)
    | Drop(ps: set<nat>)

  predicate At(s: System, p: nat, phase: Phase) { p in s.calls && s.calls[p].phase == phase }

  /** The provider gate: only generic workflows go on to claim. */
  predicate GateOpen(workflows: map<string, Provider>, workflow: string) {
    workflow != "" && workflow in workflows && workflows[workflow] == Generic
  }

  predicate Enabled(s: System, m: Move) {
    match m
    case Tick(now) => s.now <= now
    case NewWorkflow(id, _) => id !in s.workflows
    case AskApproval(key, workflow, _, _) => key !in s.table && workflow in s.workflows
    case Sweep(at) => at <= s.now
    case BeginInput(p, input) => p !in s.calls && Accepted(input.id)
    case BeginVerdict(p, _, payload) => p !in s.calls && payload != ""
    case PassGate(p) => At(s, p, Gate) && s.calls[p].origin.Routed?
      && GateOpen(s.workflows, s.calls[p].origin.input.workflow)
    case Claim(p, _) => At(s, p, Claiming) && s.calls[p].origin.Routed?
    case Expire(p) => At(s, p, Expiring)
    case ResolveRow(p) => At(s, p, Resolving)
    case ExplainRow(p) => At(s, p, Explaining)
    case StartCommand(p) => At(s, p, Starting) && s.calls[p].origin.Routed?
    case RecordStart(p) => At(s, p, RecordingStart) && s.calls[p].origin.Routed?
    case RecordEnd(p) => At(s, p, RecordingEnd) && s.calls[p].origin.Routed?
    case Drop(ps) => true
  }

  function To(s: System, p: nat, phase: Phase): System
    requires p in s.calls
  {
    s.(calls := s.calls[p := s.calls[p].(phase := phase)])
  }

  /** The INSERT of a claim. It leaves a row unless it fails for a reason of its own; the call goes on to the
      resolve in every case. */
  function AfterClaim(s: System, p: nat, works: bool): System
    requires At(s, p, Claiming) && s.calls[p].origin.Routed?
  {
    var c := s.calls[p];
    if !works then s.(calls := s.calls[p := c.(phase := Expiring, claim := Refused)])
    else if c.key in s.table then s.(calls := s.calls[p := c.(phase := Expiring, claim := Met)])
    else
      s.(table := s.table[c.key := Fresh(c.origin.input.workflow, Kind.Input, s.now, None)],
         calls := s.calls[p := c.(phase := Expiring, claim := Inserted)])
  }

  /** The second UPDATE: at most one row changes, and the call that changed it has won. */
  function AfterResolve(s: System, p: nat): System
    requires At(s, p, Resolving)
  {
    var c := s.calls[p];
    if !WouldResolve(s.table, c.key) then s.(calls := s.calls[p := c.(phase := Explaining, there := c.key in s.table)])
    else
      s.(table := ResolveOne(s.table, c.key, c.at, c.payload),
         wins := s.wins + [Win(c.key, c.payload, c.at, s.now, c.saw, c.origin)],
         calls := if c.origin.Routed? then s.calls[p := c.(phase := Starting)] else s.calls - {p})
  }

  /** The closing SELECT: a repeat is answered as a duplicate, a missing row as the claim's own error. A call that made
      the row itself and lost it to another one passes the error on. */
  function AfterExplain(s: System, p: nat): System
    requires At(s, p, Explaining)
  {
    var c := s.calls[p];
    var s' := s.(calls := s.calls - {p});
    if c.origin.Routed? && c.claim != Inserted && Explain(s.table, c.key) != Missing
    then s'.(replies := s.replies + [Duplicate(c.origin.input, c.there)]) else s'
  }

  function LostBy(calls: map<nat, Call>, ps: set<nat>): set<Ask> {
    set p | p in ps && p in calls && calls[p].phase == Starting && calls[p].origin.Routed? :: calls[p].origin.input
  }

  function Apply(s: System, m: Move): System
    requires Enabled(s, m)
  {
    match m
    case Tick(now) => s.(now := now)
    case NewWorkflow(id, provider) => s.(workflows := s.workflows[id := provider])
    case AskApproval(key, workflow, createdAt, expiresAt) =>
      s.(table := s.table[key := Fresh(workflow, Kind.Approval, createdAt, Some(expiresAt))])
    case Sweep(at) => s.(table := ExpireAll(s.table, at))
    case BeginInput(p, input) =>
      s.(calls := s.calls[p := Call(Routed(input), StorageKey(input), "", Gate, 0, false, NoClaim, false)])
    case BeginVerdict(p, key, payload) =>
      s.(calls := s.calls[p := Call(Verdict, key, payload, Expiring, 0, false, NoClaim, false)])
    case PassGate(p) => To(s, p, Claiming)
    case Claim(p, works) => AfterClaim(s, p, works)
    case Expire(p) =>
      s.(table := ExpireOne(s.table, s.calls[p].key, s.now),
         calls := s.calls[p := s.calls[p].(phase := Resolving, at := s.now, saw := s.calls[p].key in s.table)])
    case ResolveRow(p) => AfterResolve(s, p)
    case ExplainRow(p) => AfterExplain(s, p)
    case StartCommand(p) => To(s, p, RecordingStart).(starts := s.starts + [s.calls[p].origin.input])
    case RecordStart(p) => To(s, p, RecordingEnd).(records := s.records + [Record(s.calls[p].origin.input, false)])
    case RecordEnd(p) =>
      s.(calls := s.calls - {p},
         records := s.records + [Record(s.calls[p].origin.input, true)],
         replies := s.replies + [Delivered(s.calls[p].origin.input)])
    case Drop(ps) => s.(calls := s.calls - ps, lost := s.lost + LostBy(s.calls, ps))
  }

  // --- invariants -------------------------------------------------------------------------------

  /** Wins and resolved rows are the same thing, one win per row. */
  ghost predicate WinsMatch(table: Table, wins: seq<Win>) {
    (forall i, j :: 0 <= i < j < |wins| ==> wins[i].key != wins[j].key)
    && (forall w :: w in wins ==>
          w.key in table && table[w.key].state == State.Resolved
          && table[w.key].payload == Some(w.payload) && table[w.key].resolvedAt == Some(w.at))
    && (forall k :: k in table && table[k].state == State.Resolved ==> exists w :: w in wins && w.key == k)
  }

  predicate InTime(deadline: Option<int>, at: int) { deadline.Some? ==> at < deadline.value }

  /** A call that found its row at its first UPDATE can only win with a stamp before the deadline, and no stamp is later
      than the moment of the win. */
  ghost predicate OnTime(table: Table, wins: seq<Win>, calls: map<nat, Call>, now: int) {
    (forall w :: w in wins && w.saw ==> w.key in table && InTime(table[w.key].expiresAt, w.at))
    && (forall w :: w in wins ==> w.at <= w.when <= now)
    && (forall p :: p in calls && calls[p].phase == Resolving ==> calls[p].at <= now)
    && (forall p :: p in calls && calls[p].phase == Resolving && calls[p].saw ==>
          calls[p].key in table
          && (table[calls[p].key].state == State.Pending ==> InTime(table[calls[p].key].expiresAt, calls[p].at)))
  }

  predicate Late(phase: Phase) { phase == Starting || phase == RecordingStart || phase == RecordingEnd }

  predicate CallOk(c: Call, workflows: map<string, Provider>) {
    match c.origin
    case Routed(input) =>
      c.key == StorageKey(input) && Accepted(input.id) && c.payload == ""
      && (c.phase != Gate ==> GateOpen(workflows, input.workflow))
    case Verdict => c.payload != "" && (c.phase == Expiring || c.phase == Resolving || c.phase == Explaining)
  }

  ghost predicate CallsOk(calls: map<nat, Call>, workflows: map<string, Provider>) {
    forall p :: p in calls ==> CallOk(calls[p], workflows)
  }

  predicate HasRow(c: Call) { c.claim == Inserted || c.claim == Met }

  /** A claim that left a row keeps it, and a row that was there at a second UPDATE which changed nothing is settled. */
  ghost predicate ClaimsHold(calls: map<nat, Call>, table: Table) {
    forall p :: p in calls ==>
      var c := calls[p];
      (HasRow(c) ==> c.key in table && (c.phase == Explaining ==> c.there))
      && (c.phase == Explaining && c.there ==> c.key in table && table[c.key].state != State.Pending)
  }

  ghost predicate RouteWin(wins: seq<Win>, x: Ask) { exists w :: w in wins && w.origin == Routed(x) }

  ghost predicate AboutToStart(calls: map<nat, Call>, x: Ask) {
    exists p :: p in calls && calls[p].phase == Starting && calls[p].origin == Routed(x)
  }

  /** The input route wins with an empty payload, under its own key and past the gate; a verdict's payload says
      something. */
  ghost predicate WinsOk(wins: seq<Win>, workflows: map<string, Provider>) {
    forall w :: w in wins ==>
      match w.origin
      case Routed(input) =>
        w.payload == "" && w.key == StorageKey(input) && Accepted(input.id) && GateOpen(workflows, input.workflow)
      case Verdict => w.payload != ""
  }

  /** Every confirmed input is in exactly one hand: about to start, started, or lost. */
  ghost predicate Owners(calls: map<nat, Call>, wins: seq<Win>, starts: seq<Ask>, lost: set<Ask>) {
    (forall p :: p in calls && Late(calls[p].phase) ==>
       calls[p].origin.Routed? && RouteWin(wins, calls[p].origin.input)
       && calls[p].origin.input !in lost
       && (calls[p].phase == Starting <==> calls[p].origin.input !in starts))
    && (forall p, q :: p in calls && q in calls && p != q && Late(calls[p].phase) && Late(calls[q].phase) ==>
          calls[p].origin != calls[q].origin)
    && (forall i, j :: 0 <= i < j < |starts| ==> starts[i] != starts[j])
    && (forall x :: x in starts ==> RouteWin(wins, x) && x !in lost)
    && (forall x :: x in lost ==> RouteWin(wins, x))
    && (forall x :: RouteWin(wins, x) ==> x in starts || x in lost || AboutToStart(calls, x))
  }

  ghost predicate InputRow(key: string, q: Request, workflows: map<string, Provider>) {
    q.expiresAt == None && q.state != State.Expired
    && exists id: string :: Accepted(id) && key == StorageKey(Ask(q.workflow, id)) && GateOpen(workflows, q.workflow)
  }

  /** A row of kind input is one the input route made for a generic workflow. */
  ghost predicate RowsOk(table: Table, workflows: map<string, Provider>) {
    forall k :: k in table && table[k].kind == Kind.Input ==> InputRow(k, table[k], workflows)
  }

  ghost predicate RecordsOk(calls: map<nat, Call>, starts: seq<Ask>, records: seq<Record>) {
    (forall p :: p in calls && calls[p].phase == RecordingStart && calls[p].origin.Routed? ==>
       Record(calls[p].origin.input, false) !in records)
    && (forall p :: p in calls && calls[p].phase == RecordingEnd && calls[p].origin.Routed? ==>
          Record(calls[p].origin.input, false) in records && Record(calls[p].origin.input, true) !in records)
    && (forall i, j :: 0 <= i < j < |records| ==> records[i] != records[j])
    && (forall r :: r in records ==> r.input in starts && (r.completed ==> Record(r.input, false) in records))
  }

  ghost predicate RepliesOk(table: Table, starts: seq<Ask>, records: seq<Record>, replies: seq<Reply>) {
    forall r :: r in replies ==>
      match r
      case Delivered(x) => x in starts && Record(x, false) in records && Record(x, true) in records
      case Duplicate(x, there) =>
        StorageKey(x) in table && (there ==> table[StorageKey(x)].state != State.Pending)
  }

  ghost predicate Inv(s: System) {
    WinsMatch(s.table, s.wins) && OnTime(s.table, s.wins, s.calls, s.now) && CallsOk(s.calls, s.workflows)
    && ClaimsHold(s.calls, s.table) && WinsOk(s.wins, s.workflows) && Owners(s.calls, s.wins, s.starts, s.lost)
    && RowsOk(s.table, s.workflows) && RecordsOk(s.calls, s.starts, s.records)
    && RepliesOk(s.table, s.starts, s.records, s.replies)
  }

  // --- every move keeps them --------------------------------------------------------------------

  /** The moves of a call that is claiming or resolving its row. */
  predicate AtTheRow(m: Move) { m.Claim? || m.Expire? || m.ResolveRow? || m.ExplainRow? }

  /** The call whose step a move is. */
  predicate MoveOf(m: Move, p: nat) {
    match m
    case PassGate(q) => q == p
    case Claim(q, _) => q == p
    case Expire(q) => q == p
    case ResolveRow(q) => q == p
    case ExplainRow(q) => q == p
    case StartCommand(q) => q == p
    case RecordStart(q) => q == p
    case RecordEnd(q) => q == p
    case _ => false
  }

  /** A move leaves every other living call as it is. */
  lemma OthersStay(s: System, m: Move, p: nat)
    requires Enabled(s, m) && p in s.calls && p in Apply(s, m).calls && !MoveOf(m, p)
    ensures Apply(s, m).calls[p] == s.calls[p]
  {
    hide ExpireAll, ExpireOne, ResolveOne, Fresh, StorageKey, Accepted, Explain, WouldResolve, LostBy, GateOpen;
  }

  lemma TableEvolves(s: System, m: Move)
    requires Enabled(s, m)
    ensures Evolves(s.table, Apply(s, m).table)
  {
    match m
    case Sweep(at) => ExpireAllEvolves(s.table, at);
    case Expire(p) => ExpireOneEvolves(s.table, s.calls[p].key, s.now);
    case ResolveRow(p) => ResolveOneEvolves(s.table, s.calls[p].key, s.calls[p].at, s.calls[p].payload);
    case _ =>
  }

  lemma NewWin(table: Table, wins: seq<Win>, w: Win)
    requires WinsMatch(table, wins) && WouldResolve(table, w.key)
    ensures WinsMatch(ResolveOne(table, w.key, w.at, w.payload), wins + [w])
  {
    assert forall x :: x in wins + [w] <==> x in wins || x == w;
    forall k | k in table && table[k].state == State.Resolved ensures exists x :: x in wins + [w] && x.key == k {
      var x :| x in wins && x.key == k;
      assert x in wins + [w];
    }
    assert w in wins + [w];
    assert forall i :: 0 <= i < |wins| ==> wins[i] in wins;
  }

  lemma KeepsWinsMatch(s: System, m: Move)
    requires WinsMatch(s.table, s.wins) && Enabled(s, m)
    ensures WinsMatch(Apply(s, m).table, Apply(s, m).wins)
  {
    if m.ResolveRow? && WouldResolve(s.table, s.calls[m.p].key) {
      hide WinsMatch;
      var c := s.calls[m.p];
      NewWin(s.table, s.wins, Win(c.key, c.payload, c.at, s.now, c.saw, c.origin));
    }
  }

  /** The moves that neither confirm, start, record nor drop anything. */
  predicate Early(s: System, m: Move)
    requires Enabled(s, m)
  {
    match m
    case ResolveRow(p) => !WouldResolve(s.table, s.calls[p].key)
    case StartCommand(_) => false
    case RecordStart(_) => false
    case RecordEnd(_) => false
    case Drop(_) => false
    case _ => true
  }

  /** The logs and the calls late in their life are the same after as before. */
  ghost predicate LateSame(s: System, s': System) {
    s'.wins == s.wins && s'.starts == s.starts && s'.records == s.records && s'.lost == s.lost
    && (forall p :: p in s'.calls && Late(s'.calls[p].phase) ==> p in s.calls && s'.calls[p] == s.calls[p])
    && (forall p :: p in s.calls && Late(s.calls[p].phase) ==> p in s'.calls && s'.calls[p] == s.calls[p])
  }

  /** A row that evolves and calls that are not about to run their second UPDATE cannot make a stamp late. */
  lemma OnTimeWhile(table: Table, table': Table, wins: seq<Win>, calls: map<nat, Call>, calls': map<nat, Call>,
                    now: int, now': int)
    requires OnTime(table, wins, calls, now) && Evolves(table, table') && now <= now'
    requires forall p :: p in calls' && calls'[p].phase == Resolving ==> p in calls && calls'[p] == calls[p]
    ensures OnTime(table', wins, calls', now')
  {
    hide InTime;
  }

  /** What a claim changes. */
  lemma ClaimFrame(s: System, p: nat, works: bool)
    requires Enabled(s, Claim(p, works))
    ensures var s' := Apply(s, Claim(p, works));
            s'.calls.Keys == s.calls.Keys && s'.wins == s.wins && s'.now == s.now && LateSame(s, s')
            && (forall q :: q in s.calls && q != p ==> s'.calls[q] == s.calls[q])
            && s'.calls[p].phase == Expiring && s'.calls[p].key == s.calls[p].key
            && (HasRow(s'.calls[p]) ==> s'.calls[p].key in s'.table)
  {
    hide StorageKey, Fresh;
  }

  lemma ClaimMove(s: System, p: nat, works: bool)
    requires Enabled(s, Claim(p, works))
    ensures var s' := Apply(s, Claim(p, works));
            (OnTime(s.table, s.wins, s.calls, s.now) ==> OnTime(s'.table, s'.wins, s'.calls, s'.now))
            && (ClaimsHold(s.calls, s.table) ==> ClaimsHold(s'.calls, s'.table)) && LateSame(s, s')
  {
    ClaimFrame(s, p, works);
    TableEvolves(s, Claim(p, works));
    hide Apply, Enabled, OnTime, LateSame, InTime;
    var s' := Apply(s, Claim(p, works));
    if OnTime(s.table, s.wins, s.calls, s.now) {
      OnTimeWhile(s.table, s'.table, s.wins, s.calls, s'.calls, s.now, s.now);
    }
  }

  lemma ExpireOnTime(s: System, p: nat)
    requires Enabled(s, Expire(p)) && OnTime(s.table, s.wins, s.calls, s.now)
    ensures var s' := Apply(s, Expire(p)); OnTime(s'.table, s'.wins, s'.calls, s'.now)
  {
  }

  lemma ExpireClaimsHold(s: System, p: nat)
    requires Enabled(s, Expire(p)) && ClaimsHold(s.calls, s.table)
    ensures var s' := Apply(s, Expire(p)); ClaimsHold(s'.calls, s'.table)
  {
  }

  lemma ExpireMove(s: System, p: nat)
    requires Enabled(s, Expire(p))
    ensures var s' := Apply(s, Expire(p));
            (OnTime(s.table, s.wins, s.calls, s.now) ==> OnTime(s'.table, s'.wins, s'.calls, s'.now))
            && (ClaimsHold(s.calls, s.table) ==> ClaimsHold(s'.calls, s'.table)) && LateSame(s, s')
  {
    hide OnTime, ClaimsHold, ExpireOne;
    if OnTime(s.table, s.wins, s.calls, s.now) { ExpireOnTime(s, p); }
    if ClaimsHold(s.calls, s.table) { ExpireClaimsHold(s, p); }
  }

  lemma ResolveMisses(s: System, p: nat)
    requires Enabled(s, ResolveRow(p)) && !WouldResolve(s.table, s.calls[p].key)
    ensures var s' := Apply(s, ResolveRow(p));
            (OnTime(s.table, s.wins, s.calls, s.now) ==> OnTime(s'.table, s'.wins, s'.calls, s'.now))
            && (ClaimsHold(s.calls, s.table) ==> ClaimsHold(s'.calls, s'.table)) && LateSame(s, s')
  {
    hide InTime;
  }

  lemma ResolveTakes(s: System, p: nat)
    requires Enabled(s, ResolveRow(p)) && WouldResolve(s.table, s.calls[p].key)
    ensures var s' := Apply(s, ResolveRow(p));
            (OnTime(s.table, s.wins, s.calls, s.now) ==> OnTime(s'.table, s'.wins, s'.calls, s'.now))
            && (ClaimsHold(s.calls, s.table) ==> ClaimsHold(s'.calls, s'.table))
  {
    hide InTime;
  }

  lemma ExplainMove(s: System, p: nat)
    requires Enabled(s, ExplainRow(p))
    ensures var s' := Apply(s, ExplainRow(p));
            (OnTime(s.table, s.wins, s.calls, s.now) ==> OnTime(s'.table, s'.wins, s'.calls, s'.now))
            && (ClaimsHold(s.calls, s.table) ==> ClaimsHold(s'.calls, s'.table)) && LateSame(s, s')
  {
    hide InTime, Explain;
  }

  lemma AtTheRowKeeps(s: System, m: Move)
    requires Enabled(s, m) && AtTheRow(m)
    ensures var s' := Apply(s, m);
            (OnTime(s.table, s.wins, s.calls, s.now) ==> OnTime(s'.table, s'.wins, s'.calls, s'.now))
            && (ClaimsHold(s.calls, s.table) ==> ClaimsHold(s'.calls, s'.table)) && (Early(s, m) ==> LateSame(s, s'))
  {
    assert m.ResolveRow? ==> m.p in s.calls;
    hide Enabled, Apply, OnTime, ClaimsHold, LateSame;
    match m
    case Claim(p, works) => ClaimMove(s, p, works);
    case Expire(p) => ExpireMove(s, p);
    case ResolveRow(p) =>
      if WouldResolve(s.table, s.calls[p].key) { ResolveTakes(s, p); } else { ResolveMisses(s, p); }
    case ExplainRow(p) => ExplainMove(s, p);
  }

  lemma OnTimeElsewhere(s: System, m: Move)
    requires OnTime(s.table, s.wins, s.calls, s.now) && Enabled(s, m) && !AtTheRow(m)
    ensures OnTime(Apply(s, m).table, Apply(s, m).wins, Apply(s, m).calls, Apply(s, m).now)
  {
    TableEvolves(s, m);
    hide Evolves, OnTime, ExpireAll, StorageKey, Accepted, LostBy, GateOpen;
    OnTimeWhile(s.table, Apply(s, m).table, s.wins, s.calls, Apply(s, m).calls, s.now, Apply(s, m).now);
  }

  lemma KeepsOnTime(s: System, m: Move)
    requires OnTime(s.table, s.wins, s.calls, s.now) && Enabled(s, m)
    ensures OnTime(Apply(s, m).table, Apply(s, m).wins, Apply(s, m).calls, Apply(s, m).now)
  {
    hide OnTime, Apply, Enabled;
    if AtTheRow(m) { AtTheRowKeeps(s, m); } else { OnTimeElsewhere(s, m); }
  }

  lemma KeepsCallsOk(s: System, m: Move)
    requires CallsOk(s.calls, s.workflows) && Enabled(s, m)
    ensures CallsOk(Apply(s, m).calls, Apply(s, m).workflows)
  {
    hide Accepted, StorageKey;
  }

  lemma ClaimsHoldElsewhere(s: System, m: Move)
    requires ClaimsHold(s.calls, s.table) && Enabled(s, m) && !AtTheRow(m)
    ensures ClaimsHold(Apply(s, m).calls, Apply(s, m).table)
  {
    TableEvolves(s, m);
    hide ExpireAll, StorageKey, Accepted, LostBy, GateOpen;
  }

  lemma KeepsClaimsHold(s: System, m: Move)
    requires ClaimsHold(s.calls, s.table) && Enabled(s, m)
    ensures ClaimsHold(Apply(s, m).calls, Apply(s, m).table)
  {
    hide ClaimsHold, Apply, Enabled;
    if AtTheRow(m) { AtTheRowKeeps(s, m); } else { ClaimsHoldElsewhere(s, m); }
  }

  lemma RouteWinSnoc(wins: seq<Win>, w: Win, x: Ask)
    ensures RouteWin(wins + [w], x) <==> RouteWin(wins, x) || w.origin == Routed(x)
  {
    if RouteWin(wins, x) {
      var v :| v in wins && v.origin == Routed(x);
      assert v in wins + [w];
    }
    assert w in wins + [w];
  }

  /** A routed call whose row is still pending is the first to be confirmed for its input. */
  lemma FirstWin(s: System, p: nat)
    requires WinsMatch(s.table, s.wins) && WinsOk(s.wins, s.workflows) && CallsOk(s.calls, s.workflows)
    requires At(s, p, Resolving) && s.calls[p].origin.Routed? && WouldResolve(s.table, s.calls[p].key)
    ensures !RouteWin(s.wins, s.calls[p].origin.input)
  {
    hide Accepted, StorageKey;
  }

  lemma OwnersAfterWin(calls: map<nat, Call>, wins: seq<Win>, starts: seq<Ask>, lost: set<Ask>, p: nat, w: Win)
    requires Owners(calls, wins, starts, lost) && p in calls && !Late(calls[p].phase) && calls[p].origin == w.origin
    requires w.origin.Routed? ==> !RouteWin(wins, w.origin.input)
    ensures Owners(if w.origin.Routed? then calls[p := calls[p].(phase := Starting)]
                   else calls - {p}, wins + [w], starts, lost)
  {
    hide RouteWin;
    var calls' := if w.origin.Routed? then calls[p := calls[p].(phase := Starting)] else calls - {p};
    forall x: Ask ensures RouteWin(wins + [w], x) <==> RouteWin(wins, x) || w.origin == Routed(x) {
      RouteWinSnoc(wins, w, x);
    }
    forall x | RouteWin(wins + [w], x) ensures x in starts || x in lost || AboutToStart(calls', x) {
      if RouteWin(wins, x) && AboutToStart(calls, x) {
        var q :| q in calls && calls[q].phase == Starting && calls[q].origin == Routed(x);
        assert q in calls' && calls'[q] == calls[q];
      } else if w.origin == Routed(x) {
        assert calls'[p].phase == Starting && calls'[p].origin == Routed(x);
      }
    }
  }

  /** Calls may come, go, or move about before they win, as long as no call late in its life changes. */
  lemma OwnersFrame(calls: map<nat, Call>, calls': map<nat, Call>, wins: seq<Win>, starts: seq<Ask>, lost: set<Ask>)
    requires Owners(calls, wins, starts, lost)
    requires forall p :: p in calls' && Late(calls'[p].phase) ==> p in calls && calls'[p] == calls[p]
    requires forall p :: p in calls && calls[p].phase == Starting ==> p in calls' && calls'[p] == calls[p]
    ensures Owners(calls', wins, starts, lost)
  {
    hide RouteWin;
    forall x | RouteWin(wins, x) ensures x in starts || x in lost || AboutToStart(calls', x) {
      if AboutToStart(calls, x) {
        var q :| q in calls && calls[q].phase == Starting && calls[q].origin == Routed(x);
        assert q in calls' && calls'[q] == calls[q];
      }
    }
  }

  lemma OwnersAfterStart(calls: map<nat, Call>, wins: seq<Win>, starts: seq<Ask>, lost: set<Ask>, p: nat)
    requires Owners(calls, wins, starts, lost) && p in calls && calls[p].phase == Starting
    ensures calls[p].origin.Routed?
    ensures Owners(calls[p := calls[p].(phase := RecordingStart)], wins, starts + [calls[p].origin.input], lost)
  {
    hide RouteWin;
    var calls', x0 := calls[p := calls[p].(phase := RecordingStart)], calls[p].origin.input;
    forall x | RouteWin(wins, x) ensures x in starts + [x0] || x in lost || AboutToStart(calls', x) {
      if AboutToStart(calls, x) && x != x0 {
        var q :| q in calls && calls[q].phase == Starting && calls[q].origin == Routed(x);
        assert q in calls' && calls'[q] == calls[q];
      }
    }
  }

  lemma OwnersAfterRecord(calls: map<nat, Call>, wins: seq<Win>, starts: seq<Ask>, lost: set<Ask>, p: nat)
    requires Owners(calls, wins, starts, lost) && p in calls && calls[p].phase == RecordingStart
    ensures Owners(calls[p := calls[p].(phase := RecordingEnd)], wins, starts, lost)
  {
    hide RouteWin;
    var calls' := calls[p := calls[p].(phase := RecordingEnd)];
    forall x | RouteWin(wins, x) ensures x in starts || x in lost || AboutToStart(calls', x) {
      if AboutToStart(calls, x) {
        var q :| q in calls && calls[q].phase == Starting && calls[q].origin == Routed(x);
        assert q in calls' && calls'[q] == calls[q];
      }
    }
  }

  lemma OwnersAfterDrop(calls: map<nat, Call>, wins: seq<Win>, starts: seq<Ask>, lost: set<Ask>, ps: set<nat>)
    requires Owners(calls, wins, starts, lost)
    ensures Owners(calls - ps, wins, starts, lost + LostBy(calls, ps))
  {
    hide RouteWin;
    forall x | RouteWin(wins, x) ensures x in starts || x in lost + LostBy(calls, ps) || AboutToStart(calls - ps, x) {
      if AboutToStart(calls, x) {
        var q :| q in calls && calls[q].phase == Starting && calls[q].origin == Routed(x);
        if q !in ps { assert (calls - ps)[q] == calls[q]; }
      }
    }
  }

  lemma EarlyElsewhere(s: System, m: Move)
    requires Enabled(s, m) && Early(s, m) && !AtTheRow(m)
    ensures LateSame(s, Apply(s, m))
  {
    hide ExpireAll, Fresh, StorageKey, Accepted, LostBy, GateOpen;
  }

  lemma EarlyMoves(s: System, m: Move)
    requires Enabled(s, m) && Early(s, m)
    ensures LateSame(s, Apply(s, m))
  {
    hide LateSame, Apply, Enabled, Early;
    if AtTheRow(m) { AtTheRowKeeps(s, m); } else { EarlyElsewhere(s, m); }
  }

  lemma KeepsOwners(s: System, m: Move)
    requires WinsMatch(s.table, s.wins) && WinsOk(s.wins, s.workflows) && CallsOk(s.calls, s.workflows)
    requires Owners(s.calls, s.wins, s.starts, s.lost) && Enabled(s, m)
    ensures var s' := Apply(s, m); Owners(s'.calls, s'.wins, s'.starts, s'.lost)
  {
    hide Owners, WinsMatch, WinsOk, CallsOk, RouteWin, LostBy;
    if Early(s, m) {
      hide Apply;
      EarlyMoves(s, m);
      OwnersFrame(s.calls, Apply(s, m).calls, s.wins, s.starts, s.lost);
    } else {
      match m
      case ResolveRow(p) =>
        var c := s.calls[p];
        if c.origin.Routed? { FirstWin(s, p); }
        OwnersAfterWin(s.calls, s.wins, s.starts, s.lost, p, Win(c.key, c.payload, c.at, s.now, c.saw, c.origin));
      case StartCommand(p) => OwnersAfterStart(s.calls, s.wins, s.starts, s.lost, p);
      case RecordStart(p) => OwnersAfterRecord(s.calls, s.wins, s.starts, s.lost, p);
      case RecordEnd(p) => OwnersFrame(s.calls, s.calls - {p}, s.wins, s.starts, s.lost);
      case Drop(ps) => OwnersAfterDrop(s.calls, s.wins, s.starts, s.lost, ps);
    }
  }

  lemma KeepsWinsOk(s: System, m: Move)
    requires WinsOk(s.wins, s.workflows) && CallsOk(s.calls, s.workflows) && Enabled(s, m)
    ensures WinsOk(Apply(s, m).wins, Apply(s, m).workflows)
  {
    hide Accepted, StorageKey;
  }

  lemma RecordsFrame(calls: map<nat, Call>, calls': map<nat, Call>, starts: seq<Ask>, records: seq<Record>)
    requires RecordsOk(calls, starts, records)
    requires forall p :: p in calls' && Late(calls'[p].phase) && calls'[p].phase != Starting ==>
               p in calls && calls'[p] == calls[p]
    ensures RecordsOk(calls', starts, records)
  {
  }

  lemma RecordsAfterStart(calls: map<nat, Call>, starts: seq<Ask>, records: seq<Record>, p: nat)
    requires p in calls && calls[p].phase == Starting && calls[p].origin.Routed? && calls[p].origin.input !in starts
    requires RecordsOk(calls, starts, records)
    ensures RecordsOk(calls[p := calls[p].(phase := RecordingStart)], starts + [calls[p].origin.input], records)
  {
  }

  lemma RecordsAfterOne(calls: map<nat, Call>, starts: seq<Ask>, records: seq<Record>, p: nat)
    requires p in calls && calls[p].phase == RecordingStart && calls[p].origin.Routed?
             && calls[p].origin.input in starts
    requires forall q :: q in calls && q != p && Late(calls[q].phase) ==> calls[q].origin != calls[p].origin
    requires RecordsOk(calls, starts, records)
    ensures RecordsOk(calls[p := calls[p].(phase := RecordingEnd)], starts,
                      records + [Record(calls[p].origin.input, false)])
  {
    var r := Record(calls[p].origin.input, false);
    assert forall x :: x in records + [r] <==> x in records || x == r;
  }

  lemma RecordsAfterTwo(calls: map<nat, Call>, starts: seq<Ask>, records: seq<Record>, p: nat)
    requires p in calls && calls[p].phase == RecordingEnd && calls[p].origin.Routed? && calls[p].origin.input in starts
    requires forall q :: q in calls && q != p && Late(calls[q].phase) ==> calls[q].origin != calls[p].origin
    requires RecordsOk(calls, starts, records)
    ensures RecordsOk(calls - {p}, starts, records + [Record(calls[p].origin.input, true)])
  {
    var r := Record(calls[p].origin.input, true);
    assert forall x :: x in records + [r] <==> x in records || x == r;
  }

  lemma KeepsRecordsOk(s: System, m: Move)
    requires Owners(s.calls, s.wins, s.starts, s.lost) && RecordsOk(s.calls, s.starts, s.records) && Enabled(s, m)
    ensures var s' := Apply(s, m); RecordsOk(s'.calls, s'.starts, s'.records)
  {
    hide RecordsOk, RouteWin, AboutToStart;
    if Early(s, m) {
      hide Apply, Owners;
      EarlyMoves(s, m);
      RecordsFrame(s.calls, Apply(s, m).calls, s.starts, s.records);
    } else {
      match m
      case ResolveRow(p) => RecordsFrame(s.calls, Apply(s, m).calls, s.starts, s.records);
      case StartCommand(p) => RecordsAfterStart(s.calls, s.starts, s.records, p);
      case RecordStart(p) => RecordsAfterOne(s.calls, s.starts, s.records, p);
      case RecordEnd(p) => RecordsAfterTwo(s.calls, s.starts, s.records, p);
      case Drop(ps) => RecordsFrame(s.calls, s.calls - ps, s.starts, s.records);
    }
  }

  lemma RepliesFrame(s: System, s': System)
    requires RepliesOk(s.table, s.starts, s.records, s.replies) && Evolves(s.table, s'.table)
    requires forall x :: x in s.starts ==> x in s'.starts
    requires forall r :: r in s.records ==> r in s'.records
    ensures RepliesOk(s'.table, s'.starts, s'.records, s.replies)
  {
    hide StorageKey;
  }

  lemma KeepsRepliesOk(s: System, m: Move)
    requires Owners(s.calls, s.wins, s.starts, s.lost) && RecordsOk(s.calls, s.starts, s.records)
    requires CallsOk(s.calls, s.workflows) && ClaimsHold(s.calls, s.table)
    requires RepliesOk(s.table, s.starts, s.records, s.replies) && Enabled(s, m)
    ensures var s' := Apply(s, m); RepliesOk(s'.table, s'.starts, s'.records, s'.replies)
  {
    hide RouteWin, AboutToStart, Accepted, StorageKey;
    TableEvolves(s, m);
    RepliesFrame(s, Apply(s, m));
    if !m.RecordEnd? && !m.ExplainRow? { hide RepliesOk, Owners, RecordsOk, CallsOk, ClaimsHold; }
  }

  lemma KeepsRowsOk(s: System, m: Move)
    requires RowsOk(s.table, s.workflows) && CallsOk(s.calls, s.workflows) && Enabled(s, m)
    ensures var s' := Apply(s, m); RowsOk(s'.table, s'.workflows)
  {
    hide Accepted, StorageKey;
    TableEvolves(s, m);
  }

  lemma KeepsInv(s: System, m: Move)
    requires Inv(s) && Enabled(s, m)
    ensures Inv(Apply(s, m))
  {
    hide WinsMatch, OnTime, CallsOk, ClaimsHold, WinsOk, Owners, RowsOk, RecordsOk, RepliesOk, Apply, Enabled;
    KeepsWinsMatch(s, m);
    KeepsOnTime(s, m);
    KeepsCallsOk(s, m);
    KeepsClaimsHold(s, m);
    KeepsWinsOk(s, m);
    KeepsOwners(s, m);
    KeepsRowsOk(s, m);
    KeepsRecordsOk(s, m);
    KeepsRepliesOk(s, m);
  }

  // --- every run --------------------------------------------------------------------------------

  ghost predicate Run(states: seq<System>, moves: seq<Move>) {
    |states| == |moves| + 1 && states[0] == START
    && forall i :: 0 <= i < |moves| ==> Enabled(states[i], moves[i]) && states[i + 1] == Apply(states[i], moves[i])
  }

  lemma StartInv()
    ensures Inv(START)
  {
  }

  lemma {:induction false} RunKeepsInv(states: seq<System>, moves: seq<Move>)
    requires Run(states, moves)
    ensures Inv(states[|moves|])
  {
    hide Inv, Enabled, Apply;
    if moves == [] {
      StartInv();
    } else {
      var n := |moves| - 1;
      RunKeepsInv(states[..n + 1], moves[..n]);
      KeepsInv(states[n], moves[n]);
    }
  }

  /** Over any run, rows only move from pending to resolved or expired, then stay as they are, payload included. */
  lemma {:induction false} RowsOnlySettle(states: seq<System>, moves: seq<Move>, i: nat)
    requires Run(states, moves) && i <= |moves|
    ensures Evolves(states[i].table, states[|moves|].table)
  {
    hide Enabled, Apply;
    if i < |moves| {
      var n := |moves| - 1;
      RowsOnlySettle(states[..n + 1], moves[..n], i);
      hide Evolves;
      TableEvolves(states[n], moves[n]);
      EvolvesTransitive(states[i].table, states[n].table, states[n + 1].table);
    }
  }

  /** At most one caller per row ever succeeds, whichever route it came by; the row carries that caller's payload
      and stamp. The stamp is before the deadline if the row was there at the caller's first UPDATE; it is never later
      than the moment of the second one, which changed the row. */
  lemma OneWinnerPerRow(states: seq<System>, moves: seq<Move>)
    requires Run(states, moves)
    ensures var s := states[|moves|];
            (forall i, j :: 0 <= i < j < |s.wins| ==> s.wins[i].key != s.wins[j].key)
            && (forall k ::
                  k in s.table && s.table[k].state == State.Resolved <==> exists w :: w in s.wins && w.key == k)
            && (forall w :: w in s.wins ==>
                  s.table[w.key].payload == Some(w.payload) && s.table[w.key].resolvedAt == Some(w.at)
                  && w.at <= w.when <= s.now && (w.saw ==> InTime(s.table[w.key].expiresAt, w.at)))
  {
    hide CallsOk, ClaimsHold, WinsOk, Owners, RowsOk, RecordsOk, RepliesOk, Enabled, Apply;
    RunKeepsInv(states, moves);
  }

  lemma OneMore(states: seq<System>, moves: seq<Move>, m: Move) returns (states': seq<System>, moves': seq<Move>)
    requires Run(states, moves) && Enabled(states[|moves|], m)
    ensures Run(states', moves') && |states'| == |moves'| + 1 && states'[|moves'|] == Apply(states[|moves|], m)
  {
    hide Enabled, Apply;
    states', moves' := states + [Apply(states[|moves|], m)], moves + [m];
  }

  /** A command is started at most once per workflow and input id, over every run; each start is recorded at
      most once, and only after it. */
  lemma AtMostOnce(states: seq<System>, moves: seq<Move>, x: Ask)
    requires Run(states, moves)
    ensures var s := states[|moves|];
            multiset(s.starts)[x] <= 1
            && (forall c :: multiset(s.records)[Record(x, c)] <= multiset(s.starts)[x])
            && multiset(s.records)[Record(x, true)] <= multiset(s.records)[Record(x, false)]
  {
    hide CallsOk, ClaimsHold, WinsOk, WinsMatch, OnTime, RowsOk, RepliesOk, Enabled, Apply;
    RunKeepsInv(states, moves);
    var s := states[|moves|];
    DistinctCount(s.starts, x);
    DistinctCount(s.records, Record(x, true));
    DistinctCount(s.records, Record(x, false));
  }

  lemma {:induction false} DistinctCount<T>(items: seq<T>, x: T)
    requires forall i, j :: 0 <= i < j < |items| ==> items[i] != items[j]
    ensures multiset(items)[x] == if x in items then 1 else 0
  {
    if items != [] {
      var n := |items| - 1;
      assert items == items[..n] + [items[n]];
      DistinctCount(items[..n], x);
    }
  }

  /** The row of an input was won by the input route, whose payload is always empty. */
  predicate RouteWon(table: Table, x: Ask) {
    var k := StorageKey(x);
    k in table && table[k].state == State.Resolved && table[k].payload == Some("")
  }

  lemma RouteWonIff(s: System, x: Ask)
    requires WinsMatch(s.table, s.wins) && WinsOk(s.wins, s.workflows) && Accepted(x.id)
    ensures RouteWon(s.table, x) <==> RouteWin(s.wins, x)
  {
    hide Accepted, StorageKey, GateOpen;
    forall w | w in s.wins && w.key == StorageKey(x) && w.origin.Routed? ensures w.origin.input == x {
      StorageKeyInjective(w.origin.input, x);
    }
  }

  /** Over every run, whatever any route does: a command has started once, is about to, or was lost between confirm and
      start, exactly one of the three, if its row holds the input route's resolve; none of them otherwise. */
  lemma OneHandIffRouteWon(states: seq<System>, moves: seq<Move>, x: Ask)
    requires Run(states, moves) && Accepted(x.id)
    ensures var s := states[|moves|];
            multiset(s.starts)[x] + (if AboutToStart(s.calls, x) then 1 else 0) + (if x in s.lost then 1 else 0)
            == if RouteWon(s.table, x) then 1 else 0
  {
    hide Enabled, Apply, Accepted, CallsOk, ClaimsHold, OnTime, RowsOk, RecordsOk, RepliesOk, StorageKey, RouteWon,
         RouteWin;
    RunKeepsInv(states, moves);
    var s := states[|moves|];
    RouteWonIff(s, x);
    hide WinsMatch, WinsOk;
    DistinctCount(s.starts, x);
  }

  /** A caller was told that the command is done, or that it is a repeat, by a call whose second UPDATE met the row. */
  ghost predicate Answered(s: System, x: Ask) {
    Delivered(x) in s.replies || Duplicate(x, true) in s.replies
  }

  /** After such an answer the row is settled, and with no call between confirm and start and none that died there the
      command has started exactly once or never: once exactly when the row was resolved with the empty payload, which it
      was if the answer was delivered. */
  lemma ExactlyOnce(states: seq<System>, moves: seq<Move>, x: Ask)
    requires Run(states, moves) && Accepted(x.id)
    requires var s := states[|moves|]; Answered(s, x) && !AboutToStart(s.calls, x) && x !in s.lost
    ensures var s, k := states[|moves|], StorageKey(x);
            k in s.table && s.table[k].state != State.Pending
            && multiset(s.starts)[x] ==
               (if s.table[k].state == State.Resolved && s.table[k].payload == Some("") then 1 else 0)
            && (Delivered(x) in s.replies ==> multiset(s.starts)[x] == 1)
  {
    var s := states[|moves|];
    OneHandIffRouteWon(states, moves, x);
    if Delivered(x) in s.replies {
      DeliveredMeansDone(states, moves, x);
      assert x in multiset(s.starts);
    } else {
      hide Enabled, Apply, Accepted, CallsOk, ClaimsHold, OnTime, RecordsOk, StorageKey, Owners, RowsOk, WinsMatch,
           WinsOk;
      RunKeepsInv(states, moves);
    }
  }

  /** The delivered answer is only given for a command that started and was recorded. */
  lemma DeliveredMeansDone(states: seq<System>, moves: seq<Move>, x: Ask)
    requires Run(states, moves) && Delivered(x) in states[|moves|].replies
    ensures var s := states[|moves|]; x in s.starts && Record(x, false) in s.records && Record(x, true) in s.records
  {
    hide Enabled, Apply, CallsOk, ClaimsHold, WinsOk, WinsMatch, OnTime, RowsOk, RecordsOk, Owners;
    RunKeepsInv(states, moves);
  }

  /** The provider gate: an input that started, or whose row its own route made or won, is of a known workflow whose
      provider is the generic one; every row of kind input is such a row. */
  lemma GateKeepsKeys(states: seq<System>, moves: seq<Move>, x: Ask)
    requires Run(states, moves) && Accepted(x.id)
    ensures var s, k := states[|moves|], StorageKey(x);
            x in s.starts || RouteWon(s.table, x) || (k in s.table && s.table[k].kind == Kind.Input) ==>
              x.workflow in s.workflows && s.workflows[x.workflow] == Generic
    ensures var s := states[|moves|];
            forall k :: k in s.table && s.table[k].kind == Kind.Input ==>
              s.table[k].workflow in s.workflows && s.workflows[s.table[k].workflow] == Generic
  {
    hide Enabled, Apply, Accepted, CallsOk, ClaimsHold, OnTime, RecordsOk, RepliesOk, StorageKey, RouteWon;
    RunKeepsInv(states, moves);
    var s := states[|moves|];
    RouteWonIff(s, x);
    forall y: Ask | Accepted(y.id) && StorageKey(y) == StorageKey(x) ensures y == x {
      StorageKeyInjective(y, x);
    }
    if x in s.starts || RouteWon(s.table, x) { assert RouteWin(s.wins, x); }
  }
}

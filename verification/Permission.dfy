/** Approvals bound to one device: the in-memory map beside the durable rows, and what keeps the two agreed. */
module Permission {
  import opened Prelude
  import opened Storage
  import Requests

  const I64_MAX: int := 0x7FFF_FFFF_FFFF_FFFF

  datatype Decision = Allow | Reject

  datatype Outcome = Applied | Duplicate | Overdue | Unknown

  datatype Bound = Bound(
    workflow: string, requestId: string, device: string, summary: string, expiresAt: int, resolved: bool)

  type Pending = map<string, Bound>

  function Key(workflow: string, requestId: string): string { workflow + ":" + requestId }

  function Payload(d: Decision, summary: string): string { (if d == Allow then "allow" else "reject") + ":" + summary }

  /** `i64::saturating_add` of a non-negative ttl. */
  function Deadline(now: int, ttl: nat): int {
    var t := if ttl < I64_MAX then ttl else I64_MAX;
    if now + t > I64_MAX then I64_MAX else now + t
  }

  lemma DeadlineIs(now: int, ttl: nat)
    ensures now + ttl <= 9_223_372_036_854_775_807 && 0 <= now ==> Deadline(now, ttl) == now + ttl
    ensures 0 <= now <= 9_223_372_036_854_775_807 < now + ttl ==> Deadline(now, ttl) == 9_223_372_036_854_775_807
  {
  }

  /** The keys a bare request id could mean. */
  function Hits(pending: Pending, requestId: string): set<string> {
    set k | k in pending && pending[k].requestId == requestId
  }

  /** The namespaced key itself, or the one request a bare id matches. */
  ghost predicate Means(pending: Pending, requestId: string, key: string) {
    if requestId in pending then key == requestId else Hits(pending, requestId) == {key}
  }

  /** An id means a request if it is its key, or, with no such key, the id of this request and of no other. */
  lemma MeansIff(pending: Pending, requestId: string, key: string)
    requires key in pending
    ensures Means(pending, requestId, key) <==>
              key == requestId
              || (requestId !in pending && pending[key].requestId == requestId
                  && forall k :: k in pending && pending[k].requestId == requestId ==> k == key)
  {
    if requestId !in pending {
      if Hits(pending, requestId) == {key} {
        assert key in Hits(pending, requestId);
        forall k | k in pending && pending[k].requestId == requestId ensures k == key {
          assert k in Hits(pending, requestId);
        }
      }
      if forall k :: k in pending && pending[k].requestId == requestId <==> k == key {
        assert forall k :: k in Hits(pending, requestId) <==> k == key;
        assert Hits(pending, requestId) == {key};
      }
    }
  }

  // --- agreement with the store -----------------------------------------------------------------

  ghost predicate Agrees(pending: Pending, t: Requests.Table) {
    forall k :: k in pending ==>
      var e := pending[k];
      k == Key(e.workflow, e.requestId) && k in t && t[k].workflow == e.workflow && t[k].kind == Requests.Approval
      && t[k].expiresAt == Some(e.expiresAt) && (e.resolved ==> t[k].state == Requests.Resolved)
  }

  /** Nobody else settles this manager's rows. */
  ghost predicate SoleResolver(pending: Pending, t: Requests.Table) {
    forall k :: k in pending && k in t && t[k].state == Requests.Resolved ==> pending[k].resolved
  }

  /** Rows only expire once the clock has reached their deadline. */
  ghost predicate ExpiredByClock(t: Requests.Table, clock: int) {
    forall k :: k in t && t[k].state == Requests.Expired ==> t[k].expiresAt.Some? && t[k].expiresAt.value <= clock
  }

  /** Whatever else runs against the store, the map still agrees with it. */
  lemma AgreementIsStable(pending: Pending, t: Requests.Table, t': Requests.Table)
    requires Agrees(pending, t) && Requests.Evolves(t, t')
    ensures Agrees(pending, t')
  {
  }

  lemma KeyDeterminesRequest(workflow: string, a: string, b: string)
    requires Key(workflow, a) == Key(workflow, b)
    ensures a == b
  {
    assert Key(workflow, a)[|workflow| + 1..] == a && Key(workflow, b)[|workflow| + 1..] == b;
  }

  /** An awaiting verdict, as the manager lists it. */
  predicate Listed(e: Bound, workflow: string, now: int) {
    e.workflow == workflow && !e.resolved && e.expiresAt > now
  }

  function Awaiting(pending: Pending, workflow: string, now: int): set<string> {
    set k | k in pending && Listed(pending[k], workflow, now) :: pending[k].requestId
  }

  ghost predicate Open(pending: Pending, t: Requests.Table, workflow: string, now: int, requestId: string) {
    var k := Key(workflow, requestId);
    k in pending && pending[k].workflow == workflow && Requests.Winnable(t, k, now)
  }

  /** A verdict that reached an unexpired row by another route, unseen by this manager. */
  ghost predicate Overlooked(pending: Pending, t: Requests.Table, now: int) {
    exists k :: k in pending && k in t && !pending[k].resolved && pending[k].expiresAt > now
      && t[k].state == Requests.Resolved
  }

  /** With a clock that does not go back, the list is exactly the requests of this process whose row is still pending
      and unexpired, unless another route resolved one of its rows; then, and only then, it is wrong. */
  lemma AwaitingIsExact(pending: Pending, t: Requests.Table, clock: int, now: int)
    requires Agrees(pending, t) && ExpiredByClock(t, clock) && clock <= now
    ensures !Overlooked(pending, t, now) <==>
              forall workflow: string, r: string ::
                r in Awaiting(pending, workflow, now) <==> Open(pending, t, workflow, now, r)
  {
    if !Overlooked(pending, t, now) {
      forall workflow: string, r: string
        ensures r in Awaiting(pending, workflow, now) <==> Open(pending, t, workflow, now, r)
      {
        var k := Key(workflow, r);
        if k in pending && pending[k].workflow == workflow {
          KeyDeterminesRequest(workflow, pending[k].requestId, r);
        }
      }
    } else {
      var k :| k in pending && !pending[k].resolved && pending[k].expiresAt > now && t[k].state == Requests.Resolved;
      var e := pending[k];
      assert e.requestId in Awaiting(pending, e.workflow, now) && !Open(pending, t, e.workflow, now, e.requestId);
    }
  }

  // --- a verdict as a function ------------------------------------------------------------------

  /** What a verdict does to the map, the rows and the caller. */
  datatype Step = Step(pending: Pending, table: Requests.Table, outcome: Outcome)

  function MarkResolved(pending: Pending, key: string): Pending
    requires key in pending
  {
    pending[key := pending[key].(resolved := true)]
  }

  function ApplyVerdict(pending: Pending, t: Requests.Table, key: string, device: string, d: Decision, now: int): Step
    requires key in pending
  {
    var e := pending[key];
    if e.device != device then Step(pending, t, Unknown)
    else if e.resolved then Step(pending, t, Duplicate)
    else
      var t' := Requests.Resolve(t, key, now, Payload(d, e.summary));
      match Requests.ResolveAnswer(t, key, now)
      case Applied => Step(MarkResolved(pending, key), t', Applied)
      case AlreadyResolved => Step(MarkResolved(pending, key), t', Duplicate)
      case Overdue => Step(pending, t', Overdue)
      case Missing => Step(pending, t', Unknown)
  }

  /** The stored payload tells the decision and the summary it was about. */
  predicate Says(payload: Option<string>, d: Decision, summary: string) {
    (payload == Some("allow:" + summary) <==> d == Allow) && (payload == Some("reject:" + summary) <==> d == Reject)
  }

  /** The bound device's answer is what the row keeps. */
  predicate Answered(pending: Pending, t: Requests.Table, key: string, device: string, d: Decision) {
    key in pending && key in t && pending[key].device == device
    && t[key].state == Requests.Resolved && Says(t[key].payload, d, pending[key].summary)
  }

  /** Only the bound device, before the deadline, on a row nobody settled, gets its verdict applied, and that verdict
      is what the row keeps; a wrong device changes nothing at all. */
  lemma VerdictMeans(pending: Pending, t: Requests.Table, key: string, device: string, d: Decision, now: int)
    requires Agrees(pending, t) && key in pending
    ensures var e, s := pending[key], ApplyVerdict(pending, t, key, device, d, now);
            (s.outcome == Applied <==> e.device == device && Requests.Winnable(t, key, now))
            && (s.outcome == Applied ==>
                  s.table[key].state == Requests.Resolved && Says(s.table[key].payload, d, e.summary))
            && (s.outcome == Duplicate <==> e.device == device && t[key].state == Requests.Resolved)
            && (s.outcome == Overdue <==> e.device == device && s.table[key].state == Requests.Expired)
            && (s.outcome == Unknown <==> e.device != device)
            && (s.outcome == Unknown ==> s.pending == pending && s.table == t)
  {
    hide Key, Payload, Requests.Resolve, Requests.ResolveAnswer;
    var payload := Payload(d, pending[key].summary);
    PayloadSays(d, pending[key].summary);
    hide Says;
    Requests.ResolveMeans(t, key, now, payload);
    assert Requests.ResolveAnswer(t, key, now) == Requests.Applied <==> Requests.Winnable(t, key, now);
  }

  lemma VerdictAnswers(pending: Pending, t: Requests.Table, key: string, device: string, d: Decision, now: int)
    requires Agrees(pending, t) && key in pending
    ensures var s := ApplyVerdict(pending, t, key, device, d, now);
            s.outcome == Applied ==> Answered(pending, s.table, key, device, d)
  {
    VerdictMeans(pending, t, key, device, d, now);
    hide Says, ApplyVerdict;
  }

  lemma PayloadSays(d: Decision, summary: string)
    ensures Says(Some(Payload(d, summary)), d, summary)
  {
    assert ("allow:" + summary)[0] == 'a' && ("reject:" + summary)[0] == 'r';
    assert "allow:" + summary == "allow" + ":" + summary && "reject:" + summary == "reject" + ":" + summary;
  }

  lemma MarkKeeps(pending: Pending, t: Requests.Table, key: string)
    requires Agrees(pending, t) && key in pending && t[key].state == Requests.Resolved
    ensures Agrees(MarkResolved(pending, key), t)
  {
    hide Key;
  }

  lemma VerdictKeeps(pending: Pending, t: Requests.Table, key: string, device: string, d: Decision, now: int)
    requires Agrees(pending, t) && key in pending
    ensures var s := ApplyVerdict(pending, t, key, device, d, now);
            Agrees(s.pending, s.table) && (SoleResolver(pending, t) ==> SoleResolver(s.pending, s.table))
  {
    assert key in t;
    hide Key, Payload, Requests.Resolve, Requests.ResolveAnswer, Agrees, Requests.Evolves;
    var payload := Payload(d, pending[key].summary);
    var t' := Requests.Resolve(t, key, now, payload);
    Requests.ResolveEvolves(t, key, now, payload);
    AgreementIsStable(pending, t, t');
    Requests.ResolveMeans(t, key, now, payload);
    if t'[key].state == Requests.Resolved { MarkKeeps(pending, t', key); }
  }

  /** The first verdict stands: whatever happened since, the same device hears Duplicate, every other one Unknown,
      and neither moves the row. */
  lemma FirstVerdictStands(
      pending: Pending, t: Requests.Table, key: string, device: string, d: Decision, now: int,
      later: Requests.Table, device': string, d': Decision, now': int)
    requires Agrees(pending, t) && key in pending
    requires ApplyVerdict(pending, t, key, device, d, now).outcome == Applied
    requires Requests.Evolves(ApplyVerdict(pending, t, key, device, d, now).table, later)
    ensures var s := ApplyVerdict(pending, t, key, device, d, now);
            var s' := ApplyVerdict(s.pending, later, key, device', d', now');
            s'.outcome == (if device' == device then Duplicate else Unknown)
            && s'.table == later && Says(later[key].payload, d, pending[key].summary)
  {
    VerdictMeans(pending, t, key, device, d, now);
    hide Says;
  }

  // --- every run with this manager as the only resolver of its rows -----------------------------

  datatype View = View(pending: Pending, table: Requests.Table, clock: int)

  ghost predicate Asked(v: View, v': View, workflow: string, requestId: string, device: string, summary: string,
                        ttl: nat) {
    var key := Key(workflow, requestId);
    key !in v.table
    && v'.pending == v.pending[key := Bound(workflow, requestId, device, summary, Deadline(v'.clock, ttl), false)]
    && v'.table == v.table[key := Requests.Fresh(workflow, Requests.Approval, v'.clock, Some(Deadline(v'.clock, ttl)))]
  }

  ghost predicate Ruled(v: View, v': View, key: string, device: string, d: Decision) {
    key in v.pending
    && var s := ApplyVerdict(v.pending, v.table, key, device, d, v'.clock);
       v'.pending == s.pending && v'.table == s.table
  }

  /** The rest of the agent: sweeps, new rows, and anything done to rows that are not this manager's. */
  ghost predicate Outside(v: View, v': View) {
    v'.pending == v.pending && Requests.Evolves(v.table, v'.table)
    && (forall k :: k in v.pending && k in v.table && k in v'.table && v.table[k].state == Requests.Pending ==>
          v'.table[k].state != Requests.Resolved)
    && (forall k :: k in v'.table && v'.table[k].state == Requests.Expired ==>
          (k in v.table && v.table[k].state == Requests.Expired)
          || (v'.table[k].expiresAt.Some? && v'.table[k].expiresAt.value <= v'.clock))
  }

  ghost predicate Next(v: View, v': View) {
    v.clock <= v'.clock
    && ((exists w, r, device, summary, ttl :: Asked(v, v', w, r, device, summary, ttl))
        || (exists key, device, d :: Ruled(v, v', key, device, d))
        || Outside(v, v'))
  }

  ghost predicate Good(v: View) {
    Agrees(v.pending, v.table) && SoleResolver(v.pending, v.table) && ExpiredByClock(v.table, v.clock)
  }

  lemma AskedKeeps(v: View, v': View, w: string, r: string, device: string, summary: string, ttl: nat)
    requires Good(v) && v.clock <= v'.clock && Asked(v, v', w, r, device, summary, ttl)
    ensures Good(v')
  {
    hide Deadline, Key;
  }

  lemma RuledKeeps(v: View, v': View, key: string, device: string, d: Decision)
    requires Good(v) && v.clock <= v'.clock && Ruled(v, v', key, device, d)
    ensures Good(v')
  {
    hide Key, Payload;
    VerdictKeeps(v.pending, v.table, key, device, d, v'.clock);
    hide Agrees, SoleResolver;
  }

  lemma OutsideKeeps(v: View, v': View)
    requires Good(v) && v.clock <= v'.clock && Outside(v, v')
    ensures Good(v')
  {
    AgreementIsStable(v.pending, v.table, v'.table);
    hide Key;
  }

  lemma EmptyIsGood(v: View)
    requires v.pending == map[] && ExpiredByClock(v.table, v.clock)
    ensures Good(v)
  {
  }

  ghost predicate Run(views: seq<View>) {
    views != [] && views[0].pending == map[] && ExpiredByClock(views[0].table, views[0].clock)
    && forall i :: 0 < i < |views| ==> Next(views[i - 1], views[i])
  }

  lemma {:induction false} RunKeeps(views: seq<View>)
    requires Run(views)
    ensures Good(views[|views| - 1])
  {
    hide Good, Asked, Ruled, Outside;
    var n := |views| - 1;
    if n == 0 {
      EmptyIsGood(views[0]);
    } else {
      RunKeeps(views[..n]);
      var v, v' := views[n - 1], views[n];
      assert Next(v, v');
      if w, r, device, summary, ttl :| Asked(v, v', w, r, device, summary, ttl) {
        AskedKeeps(v, v', w, r, device, summary, ttl);
      } else if key, device, d :| Ruled(v, v', key, device, d) {
        RuledKeeps(v, v', key, device, d);
      } else {
        OutsideKeeps(v, v');
      }
    }
  }

  /** In every reachable state the list is exact and the map agrees with the rows. */
  lemma ListIsExactInEveryRun(views: seq<View>, workflow: string, now: int, requestId: string)
    requires Run(views) && views[|views| - 1].clock <= now
    ensures var v := views[|views| - 1];
            Agrees(v.pending, v.table)
            && (requestId in Awaiting(v.pending, workflow, now) <==> Open(v.pending, v.table, workflow, now, requestId))
  {
    hide Agrees, ExpiredByClock, Awaiting, Key, Open;
    RunKeeps(views);
    var v := views[|views| - 1];
    AwaitingIsExact(v.pending, v.table, v.clock, now);
  }

  class PermissionManager {
    const storage: Storage
    var pending: Pending

    ghost predicate Valid()
      reads this, storage
    {
      storage.Valid() && Agrees(pending, storage.requests)
    }

    constructor (storage: Storage)
      requires storage.Valid()
      ensures Valid() && this.storage == storage && pending == map[]
    {
      this.storage := storage;
      pending := map[];
    }

    /** Records one approval: the row first, then the binding. A key that exists already is an error and rebinds
        nothing. */
    method Request(workflow: string, requestId: string, device: string, summary: string, ttl: nat, now: int)
        returns (r: Result<()>)
      requires Valid()
      modifies this, storage`requests
      ensures Valid()
      ensures var key := workflow + ":" + requestId;
              var filled := workflow != "" && requestId != "" && device != "";
              (r.Ok? <==> filled && workflow in storage.workflows && key !in old(storage.requests))
              && (r.Ok? ==>
                    pending ==
                      old(pending)[key := Bound(workflow, requestId, device, summary, Deadline(now, ttl), false)]
                    && storage.requests == old(storage.requests)[
                         key := Requests.Fresh(workflow, Requests.Approval, now, Some(Deadline(now, ttl)))]
                    && (0 <= now && now + ttl <= 9_223_372_036_854_775_807 ==> pending[key].expiresAt == now + ttl)
                    && (0 <= now <= 9_223_372_036_854_775_807 < now + ttl ==>
                          pending[key].expiresAt == 9_223_372_036_854_775_807))
              && (r.Err? ==>
                    pending == old(pending) && storage.requests == old(storage.requests)
                    && r.error ==
                       (if !filled then InvalidState else if workflow in storage.workflows then Sqlite else NotFound))
      ensures old(SoleResolver(pending, storage.requests)) ==> SoleResolver(pending, storage.requests)
    {
      DeadlineIs(now, ttl);
      assert Key(workflow, requestId) == workflow + ":" + requestId;
      hide Key, Deadline, Consistent;
      if workflow == "" || requestId == "" || device == "" { return Err(InvalidState); }
      var key := Key(workflow, requestId);
      var expiresAt := Deadline(now, ttl);
      r := storage.CreatePendingRequest(key, workflow, Requests.Approval, Some(expiresAt), now);
      if r.Ok? {
        pending := pending[key := Bound(workflow, requestId, device, summary, expiresAt, false)];
      }
    }

    /** A verdict under a namespaced key, or under a bare id that means exactly one request; an id that means none or
        several is Unknown and changes nothing. */
    method Resolve(requestId: string, device: string, d: Decision, now: int) returns (outcome: Outcome)
      requires Valid()
      modifies this, storage`requests
      ensures Valid()
      ensures if exists key :: key in old(pending) && Means(old(pending), requestId, key)
              then exists key :: key in old(pending) && Means(old(pending), requestId, key)
                     && Step(pending, storage.requests, outcome)
                        == ApplyVerdict(old(pending), old(storage.requests), key, device, d, now)
              else outcome == Unknown && pending == old(pending) && storage.requests == old(storage.requests)
      ensures outcome == Applied ==>
                exists key :: Means(old(pending), requestId, key)
                  && Answered(old(pending), storage.requests, key, device, d)
      ensures old(SoleResolver(pending, storage.requests)) ==> SoleResolver(pending, storage.requests)
    {
      hide Key, Payload, Says, Consistent, Requests.Resolve, Requests.ResolveAnswer;
      var key := requestId;
      if requestId !in pending {
        var hits := Hits(pending, requestId);
        if |hits| != 1 {
          assert forall k :: hits != {k};
          return Unknown;
        }
        var k :| k in hits;
        OnlyMember(hits, k);
        key := k;
      }
      assert Means(pending, requestId, key) && key in pending;
      VerdictKeeps(pending, storage.requests, key, device, d, now);
      VerdictAnswers(pending, storage.requests, key, device, d, now);
      hide Answered;
      var e := pending[key];
      if e.device != device { return Unknown; }
      if e.resolved { return Duplicate; }
      var r := storage.ResolvePendingRequest(key, Payload(d, e.summary), now);
      match r {
        case Ok(_) =>
          pending := MarkResolved(pending, key);
          outcome := Applied;
        case Err(AlreadyResolved) =>
          pending := MarkResolved(pending, key);
          outcome := Duplicate;
        case Err(Expired) => outcome := Overdue;
        case Err(_) => outcome := Unknown;
      }
    }

    method SweepExpired(now: int) returns (flipped: nat)
      requires Valid()
      modifies storage`requests
      ensures Valid() && storage.requests == Requests.ExpireAll(old(storage.requests), now)
      ensures flipped == |Requests.DueIds(old(storage.requests), now)|
      ensures old(SoleResolver(pending, storage.requests)) ==> SoleResolver(pending, storage.requests)
    {
      Requests.ExpireAllEvolves(storage.requests, now);
      AgreementIsStable(pending, storage.requests, Requests.ExpireAll(storage.requests, now));
      hide Consistent;
      flipped := storage.ExpirePendingRequests(now);
    }

    /** The ids still awaiting a verdict in one workflow, sorted. */
    method PendingFor(workflow: string, now: int) returns (out: seq<string>)
      ensures forall r :: r in out <==> r in Awaiting(pending, workflow, now)
      ensures forall i, j :: 0 <= i < j < |out| ==> Less(out[i], out[j])
    {
      out := SortIds(Awaiting(pending, workflow, now));
    }
  }

  lemma OnlyMember(s: set<string>, k: string)
    requires |s| == 1 && k in s
    ensures s == {k}
  {
    assert |s - {k}| == 0;
  }

  lemma LeastId(ids: set<string>) returns (least: string)
    requires ids != {}
    ensures least in ids && forall k :: k in ids && k != least ==> Less(least, k)
  {
    least :| least in ids;
    if ids != {least} {
      var other := LeastId(ids - {least});
      LessTrichotomy(least, other);
      if Less(other, least) {
        least := other;
      } else {
        forall k | k in ids && k != least ensures Less(least, k) {
          if k != other { LessTransitive(least, other, k); }
        }
      }
    }
  }

  method SortIds(ids: set<string>) returns (out: seq<string>)
    ensures forall r :: r in out <==> r in ids
    ensures forall i, j :: 0 <= i < j < |out| ==> Less(out[i], out[j])
  {
    out := [];
    var left := ids;
    while left != {}
      invariant forall r :: r in ids <==> r in out || r in left
      invariant forall i, k :: 0 <= i < |out| && k in left ==> Less(out[i], k)
      invariant forall i, j :: 0 <= i < j < |out| ==> Less(out[i], out[j])
      decreases left
    {
      ghost var l := LeastId(left);
      var k :| k in left && forall j :: j in left && j != k ==> Less(k, j);
      out := out + [k];
      left := left - {k};
    }
  }
}

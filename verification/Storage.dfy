/** The agent's store: its tables, and every statement the rest of the agent issues on them. Each method
    is one transaction or one statement sequence of the original; `now` is the clock it reads. */
module Storage {
  import opened Prelude
  import Outbox
  import Requests
  import Ring

  datatype Provider = UnspecifiedProvider | Opencode | Claude | Codex | Generic

  datatype WorkflowState =
    | Unspecified | Running | WaitingInput | WaitingApproval | Completed | Failed | Stopped | DisconnectedRunning

  datatype Workflow = Workflow(
    provider: Provider, state: WorkflowState, title: string, session: Option<string>, createdAt: int, updatedAt: int)

  datatype Binding = Binding(session: string, resume: Option<string>)

  datatype Error = Sqlite | InvalidState | NotFound | AlreadyResolved | Expired

  datatype Result<+T> = Ok(value: T) | Err(error: Error)

  datatype RingStats = RingStats(
    count: int, bytes: int, oldest: Option<int>, newest: Option<int>, truncatedBefore: Option<int>, dropped: int)

  predicate Persistable(s: WorkflowState) { s != Unspecified && s != DisconnectedRunning }

  predicate Terminal(s: WorkflowState) { s == Completed || s == Failed || s == Stopped }

  /** Everything a call can change, as a value. */
  datatype Db = Db(
    workflows: map<string, Workflow>, rings: map<string, Ring.Ring>, outbox: Outbox.Table,
    bindings: map<string, Binding>, requests: Requests.Table)

  function RingOf(rings: map<string, Ring.Ring>, workflow: string): Ring.Ring {
    if workflow in rings then rings[workflow] else Ring.FRESH
  }

  /** One committed append: the trimmed ring and one outbox row under the same number. */
  function WithEvent(db: Db, workflow: string, draft: Ring.Draft, now: int): Db {
    var ring := RingOf(db.rings, workflow);
    db.(rings := db.rings[workflow := Ring.Append(ring, draft)],
        outbox := db.outbox[Outbox.Key(workflow, Ring.NextSeq(ring.rows)) := Outbox.Row(now, None)])
  }

  function WithState(db: Db, workflow: string, state: WorkflowState, now: int): Db
    requires workflow in db.workflows
  {
    db.(workflows := db.workflows[workflow := db.workflows[workflow].(state := state, updatedAt := now)])
  }

  function MarkAll(t: Outbox.Table, entries: seq<Outbox.Key>, now: int): Outbox.Table {
    if entries == [] then t else MarkAll(Outbox.Mark(t, entries[0], now), entries[1..], now)
  }

  ghost function Past(history: map<string, seq<Ring.Row>>, workflow: string): seq<Ring.Row> {
    if workflow in history then history[workflow] else []
  }

  /** Each ring tracks its full history, and the outbox holds one row per number ever assigned. */
  ghost predicate Consistent(
      rings: map<string, Ring.Ring>, outbox: set<Outbox.Key>, history: map<string, seq<Ring.Row>>)
  {
    (forall w: string :: Ring.Tracks(Past(history, w), RingOf(rings, w)))
    && (forall k :: k in outbox <==> 1 <= k.seqNo <= |Past(history, k.workflow)|)
  }

  lemma CutUnique(rows: seq<Ring.Row>, k: nat)
    requires k < |rows|
    requires Ring.Fits(rows[k..]) || k == |rows| - 1
    requires forall j :: 0 <= j < k ==> !Ring.Fits(rows[j..])
    ensures k == Ring.CutLength(rows)
  {
    Ring.CutIsShortest(rows);
    hide Ring.Fits;
  }

  lemma {:induction false} SumSplit(rows: seq<Ring.Row>, k: nat)
    requires k <= |rows|
    ensures Ring.Sum(rows) == Ring.Sum(rows[..k]) + Ring.Sum(rows[k..])
  {
    if k == 0 {
      assert rows[..0] == [] && rows[0..] == rows;
    } else {
      SumSplit(rows[1..], k - 1);
      assert rows[1..][..k - 1] == rows[..k][1..] && rows[1..][k - 1..] == rows[k..];
    }
  }

  lemma SumSnoc(rows: seq<Ring.Row>, k: nat)
    requires k < |rows|
    ensures Ring.Sum(rows[..k + 1]) == Ring.Sum(rows[..k]) + rows[k].bytes
  {
    SumSplit(rows[..k + 1], k);
    assert rows[..k + 1][..k] == rows[..k] && rows[..k + 1][k..] == [rows[k]];
  }

  lemma {:induction false} DeletePrefix(rows: seq<Ring.Row>, first: int, k: nat)
    requires Ring.Numbered(rows, first) && k <= |rows|
    ensures Ring.DeleteUpTo(rows, first + k - 1) == rows[k..]
  {
    if rows != [] {
      assert Ring.Numbered(rows[1..], first + 1) by {
        assert forall i :: 0 <= i < |rows| - 1 ==> rows[1..][i] == rows[i + 1];
      }
      if k == 0 {
        DeletePrefix(rows[1..], first + 1, 0);
        assert Ring.DeleteUpTo(rows[1..], first - 1) == rows[1..] by { DeleteNothing(rows[1..], first + 1, first - 1); }
        assert [rows[0]] + rows[1..] == rows;
      } else {
        DeletePrefix(rows[1..], first + 1, k - 1);
        assert rows[1..][k - 1..] == rows[k..];
      }
    }
  }

  lemma {:induction false} DeleteNothing(rows: seq<Ring.Row>, first: int, cutoff: int)
    requires Ring.Numbered(rows, first) && cutoff < first
    ensures Ring.DeleteUpTo(rows, cutoff) == rows
  {
    if rows != [] {
      assert Ring.Numbered(rows[1..], first + 1) by {
        assert forall i :: 0 <= i < |rows| - 1 ==> rows[1..][i] == rows[i + 1];
      }
      DeleteNothing(rows[1..], first + 1, cutoff);
    }
  }

  /** The walk over the oldest rows that finds one cutoff for both deficits at once. */
  method FindCutoff(rows: seq<Ring.Row>) returns (cutoff: Option<int>)
    requires rows != []
    ensures var k := Ring.CutLength(rows);
            cutoff == if k == 0 then None else Some(rows[k - 1].event.seqNo)
  {
    var count, bytes := |rows|, Ring.Sum(rows);
    var excessEvents := if count > Ring.MAX_RING_EVENTS then count - Ring.MAX_RING_EVENTS else 0;
    var excessBytes := if bytes > Ring.MAX_RING_BYTES then bytes - Ring.MAX_RING_BYTES else 0;
    if excessEvents == 0 && excessBytes == 0 { return None; }
    cutoff := None;
    var needEvents, needBytes := excessEvents, excessBytes;
    var i := 0;
    while i < count - 1
      invariant 0 <= i <= count - 1
      invariant cutoff == if i == 0 then None else Some(rows[i - 1].event.seqNo)
      invariant needEvents == excessEvents - i
      invariant needBytes == excessBytes - Ring.Sum(rows[..i])
      invariant forall j :: 0 <= j < i ==> !Ring.Fits(rows[j..])
    {
      SumSplit(rows, i);
      if needEvents <= 0 && needBytes <= 0 { break; }
      var row := rows[i];
      cutoff := Some(row.event.seqNo);
      needEvents := needEvents - 1;
      needBytes := needBytes - row.bytes;
      SumSnoc(rows, i);
      i := i + 1;
    }
    CutUnique(rows, i);
  }

  lemma MarkCounts(t: Outbox.Table, k: Outbox.Key, now: int)
    ensures var t' := Outbox.Mark(t, k, now);
            t'.Keys == t.Keys && Outbox.PendingKeys(t') == Outbox.PendingKeys(t) - {k}
            && |Outbox.PendingKeys(t')| + (if Outbox.Pending(t, k) then 1 else 0) == |Outbox.PendingKeys(t)|
  {
  }

  class Storage {
    var workflows: map<string, Workflow>
    var rings: map<string, Ring.Ring>
    var outbox: Outbox.Table
    var bindings: map<string, Binding>
    var requests: Requests.Table
    /** Every row ever appended, trimmed or not. */
    ghost var history: map<string, seq<Ring.Row>>

    function Contents(): Db
      reads this
    {
      Db(workflows, rings, outbox, bindings, requests)
    }

    ghost predicate Valid()
      reads this
    {
      Consistent(rings, outbox.Keys, history)
    }

    constructor ()
      ensures Valid() && Contents() == Db(map[], map[], map[], map[], map[]) && history == map[]
    {
      workflows, rings, outbox, bindings, requests, history := map[], map[], map[], map[], map[], map[];
      new;
      hide Consistent;
      FreshConsistent();
      assert outbox.Keys == {};
    }

    method CreateWorkflow(id: string, provider: Provider, title: string, session: Option<string>, now: int)
        returns (r: Result<Workflow>)
      requires Valid()
      modifies this
      ensures Valid() && history == old(history)
      ensures r.Ok? <==> id !in old(workflows)
      ensures r.Ok? ==> r.value == Workflow(provider, Running, title, session, now, now)
                        && Contents() == old(Contents()).(workflows := old(workflows)[id := r.value])
      ensures r.Err? ==> r.error == Sqlite && Contents() == old(Contents())
    {
      hide Consistent;
      if id in workflows { return Err(Sqlite); }
      var row := Workflow(provider, Running, title, session, now, now);
      workflows := workflows[id := row];
      r := Ok(row);
    }

    /** Terminal states are final, and the two states that are never stored are refused. */
    method SetWorkflowState(id: string, next: WorkflowState, now: int) returns (r: Result<Workflow>)
      requires Valid()
      modifies this
      ensures Valid() && history == old(history)
      ensures r.Ok? <==> next != WorkflowState.Unspecified && next != DisconnectedRunning && id in old(workflows)
                         && old(workflows)[id].state !in {Completed, Failed, Stopped}
      ensures r.Ok? ==> Contents() == WithState(old(Contents()), id, next, now) && r.value == workflows[id]
      ensures r.Err? ==> Contents() == old(Contents())
                         && r.error == if Persistable(next) && id !in workflows then NotFound else InvalidState
    {
      hide Consistent;
      if !Persistable(next) { return Err(InvalidState); }
      if id !in workflows { return Err(NotFound); }
      var current := workflows[id];
      if Terminal(current.state) { return Err(InvalidState); }
      workflows := workflows[id := current.(state := next, updatedAt := now)];
      r := Ok(workflows[id]);
    }

    method TrimRing(id: string)
      requires id in rings && rings[id].rows != []
      requires Ring.Numbered(rings[id].rows, rings[id].rows[0].event.seqNo)
      modifies this`rings
      ensures rings == old(rings)[id := Ring.Trim(old(rings)[id])]
    {
      var ring := rings[id];
      var cutoff := FindCutoff(ring.rows);
      if cutoff == None {
        assert rings == rings[id := ring];
        return;
      }
      DeletePrefix(ring.rows, ring.rows[0].event.seqNo, Ring.CutLength(ring.rows));
      var kept := Ring.DeleteUpTo(ring.rows, cutoff.value);
      var deleted := |ring.rows| - |kept|;
      rings := rings[id := Ring.Ring(kept, Some(Ring.RecordCut(ring.cut, cutoff.value, deleted)))];
    }

    /** One transaction: number, insert, enqueue, trim. */
    method AppendEvent(id: string, draft: Ring.Draft, now: int) returns (r: Result<Ring.Event>)
      requires Valid()
      modifies this
      ensures Valid()
      ensures r.Ok? <==> id in old(workflows)
      ensures r.Ok? ==> Contents() == WithEvent(old(Contents()), id, draft, now)
                        && r.value == Ring.Event(|Past(old(history), id)| + 1, draft)
                        && history ==
                           old(history)[id := Past(old(history), id) + [Ring.Row(r.value, Ring.ApproxBytes(draft))]]
      ensures r.Err? ==> r.error == NotFound && Contents() == old(Contents()) && history == old(history)
    {
      hide Consistent, Ring.Append, Ring.NewRow, Ring.Tracks;
      if id !in workflows { return Err(NotFound); }
      ConsistentAt(rings, outbox.Keys, history, id);
      ghost var past, before := Past(history, id), Contents();
      var ring := RingOf(rings, id);
      var row := Ring.NewRow(ring, draft);
      rings := rings[id := Ring.Ring(ring.rows + [row], ring.cut)];
      outbox := outbox[Outbox.Key(id, row.event.seqNo) := Outbox.Row(now, None)];
      RowsNumbered(past, ring, draft);
      TrimRing(id);
      history := history[id := past + [row]];
      AppendConsistent(before, old(history), id, draft, now);
      Ring.RowOfDraft(ring, draft);
      assert rings == before.rings[id := Ring.Append(ring, draft)];
      r := Ok(row.event);
    }

    /** Events strictly after `after`, oldest first, at most `limit`. */
    function EventsAfter(id: string, after: int, limit: nat): (r: seq<Ring.Event>)
      reads this
      ensures |r| <= limit
    {
      Ring.EventsAfter(RingOf(rings, id).rows, after, limit)
    }

    function Stats(id: string): RingStats
      reads this
    {
      var ring := RingOf(rings, id);
      RingStats(
        |ring.rows|, Ring.Sum(ring.rows),
        if ring.rows == [] then None else Some(ring.rows[0].event.seqNo),
        if ring.rows == [] then None else Some(ring.rows[|ring.rows| - 1].event.seqNo),
        if ring.cut.Some? then Some(ring.cut.value.before) else None,
        if ring.cut.Some? then ring.cut.value.dropped else 0)
    }

    method OutboxDrain(limit: nat) returns (batch: seq<Outbox.Key>)
      ensures Outbox.IsDrain(outbox, limit, batch)
    {
      batch := Outbox.Drain(outbox, limit);
    }

    /** Marks one entry at a time; the answer counts the rows that were still unpublished. */
    method OutboxMarkPublished(entries: seq<Outbox.Key>, now: int) returns (marked: nat)
      requires Valid()
      modifies this`outbox
      ensures Valid()
      ensures outbox == MarkAll(old(outbox), entries, now)
      ensures marked + |Outbox.PendingKeys(outbox)| == |Outbox.PendingKeys(old(outbox))|
    {
      hide Consistent;
      marked := 0;
      var i := 0;
      while i < |entries|
        invariant 0 <= i <= |entries|
        invariant MarkAll(outbox, entries[i..], now) == MarkAll(old(outbox), entries, now)
        invariant outbox.Keys == old(outbox.Keys)
        invariant marked + |Outbox.PendingKeys(outbox)| == |Outbox.PendingKeys(old(outbox))|
      {
        assert entries[i..][0] == entries[i] && entries[i..][1..] == entries[i + 1..];
        MarkCounts(outbox, entries[i], now);
        if Outbox.Pending(outbox, entries[i]) { marked := marked + 1; }
        outbox := Outbox.Mark(outbox, entries[i], now);
        i := i + 1;
      }
    }

    function OutboxPendingCount(): nat
      reads this
    {
      |Outbox.PendingKeys(outbox)|
    }

    method UpsertSessionBinding(id: string, session: string, resume: Option<string>)
      requires Valid()
      modifies this`bindings
      ensures Valid()
      ensures bindings == old(bindings)[id := Binding(session, resume)]
    {
      hide Consistent;
      bindings := bindings[id := Binding(session, resume)];
    }

    method CreatePendingRequest(key: string, id: string, kind: Requests.Kind, expiresAt: Option<int>, now: int)
        returns (r: Result<()>)
      requires Valid()
      modifies this`requests
      ensures Valid()
      ensures r.Ok? <==> id in workflows && key !in old(requests)
      ensures r.Ok? ==> requests == old(requests)[key := Requests.Fresh(id, kind, now, expiresAt)]
      ensures r.Err? ==> r.error == (if id !in workflows then NotFound else Sqlite) && requests == old(requests)
    {
      hide Consistent;
      if id !in workflows { return Err(NotFound); }
      if key in requests { return Err(Sqlite); }
      requests := requests[key := Requests.Fresh(id, kind, now, expiresAt)];
      r := Ok(());
    }

    /** Single resolve: two UPDATEs and, when neither took, a SELECT that says why. */
    method ResolvePendingRequest(key: string, payload: string, now: int) returns (r: Result<()>)
      requires Valid()
      modifies this`requests
      ensures Valid()
      ensures requests == Requests.Resolve(old(requests), key, now, payload)
      ensures match Requests.ResolveAnswer(old(requests), key, now)
              case Applied => r.Ok?
              case AlreadyResolved => r == Err(AlreadyResolved)
              case Overdue => r == Err(Expired)
              case Missing => r == Err(NotFound)
    {
      hide Consistent;
      if key in requests && Requests.Due(requests[key], now) {
        requests := requests[key := requests[key].(state := Requests.Expired)];
      }
      var updated := 0;
      if key in requests && requests[key].state == Requests.Pending {
        requests :=
          requests[key :=
                   requests[key].(state := Requests.Resolved, resolvedAt := Some(now), payload := Some(payload))];
        updated := 1;
      }
      if updated == 1 { return Ok(()); }
      if key !in requests { return Err(NotFound); }
      if requests[key].state == Requests.Expired { return Err(Expired); }
      r := Err(AlreadyResolved);
    }

    method ExpirePendingRequests(now: int) returns (flipped: nat)
      requires Valid()
      modifies this`requests
      ensures Valid()
      ensures requests == Requests.ExpireAll(old(requests), now)
      ensures flipped == |Requests.DueIds(old(requests), now)|
    {
      hide Consistent;
      var ids := Requests.DueIds(requests, now);
      flipped := |ids|;
      requests := Requests.ExpireAll(requests, now);
    }
  }

  lemma NumberedTail(past: seq<Ring.Row>, c: nat)
    requires Ring.Numbered(past, 1) && c <= |past|
    ensures Ring.Numbered(past[c..], c + 1)
  {
  }

  lemma NumberedSnoc(rows: seq<Ring.Row>, first: int, row: Ring.Row)
    requires Ring.Numbered(rows, first) && row.event.seqNo == first + |rows|
    ensures Ring.Numbered(rows + [row], first) && (rows + [row])[0].event.seqNo == first
  {
  }

  lemma RowsNumbered(past: seq<Ring.Row>, ring: Ring.Ring, draft: Ring.Draft)
    requires Ring.Tracks(past, ring)
    ensures var rows := ring.rows + [Ring.NewRow(ring, draft)];
            Ring.Numbered(rows, rows[0].event.seqNo)
  {
    var c := |past| - |ring.rows|;
    NumberedTail(past, c);
    hide Ring.NewRow, Ring.Numbered, Ring.Append, Ring.Fits;
    Ring.AppendTracks(past, ring, draft);
    NumberedSnoc(ring.rows, c + 1, Ring.NewRow(ring, draft));
  }

  lemma AppendConsistent(db: Db, history: map<string, seq<Ring.Row>>, id: string, draft: Ring.Draft, now: int)
    requires Consistent(db.rings, db.outbox.Keys, history)
    ensures var row, db' := Ring.NewRow(RingOf(db.rings, id), draft), WithEvent(db, id, draft, now);
            Consistent(db'.rings, db'.outbox.Keys, history[id := Past(history, id) + [row]])
            && row == Ring.Row(Ring.Event(|Past(history, id)| + 1, draft), Ring.ApproxBytes(draft))
            && row.event.seqNo == Ring.NextSeq(RingOf(db.rings, id).rows)
  {
    hide Ring.Tracks, Ring.Append, Ring.NewRow;
    var past, ring := Past(history, id), RingOf(db.rings, id);
    Ring.AppendTracks(past, ring, draft);
    var row := Ring.NewRow(ring, draft);
    Ring.RowOfDraft(ring, draft);
    var db', history' := WithEvent(db, id, draft, now), history[id := past + [row]];
    forall w: string ensures Ring.Tracks(Past(history', w), RingOf(db'.rings, w)) {
      if w != id {
        assert Past(history', w) == Past(history, w) && RingOf(db'.rings, w) == RingOf(db.rings, w);
      }
    }
    forall k ensures k in db'.outbox.Keys <==> 1 <= k.seqNo <= |Past(history', k.workflow)| {
      if k.workflow == id { assert k == Outbox.Key(id, k.seqNo); }
    }
  }

  /** The outbox half of an append is a step of the relay's table: in a consistent store the new entry carries the first
      number its workflow has not used. */
  lemma AppendIsRelayStep(
      db: Db, history: map<string, seq<Ring.Row>>, id: string, draft: Ring.Draft, now: int, r: Outbox.Relay)
    requires Consistent(db.rings, db.outbox.Keys, history) && r.table == db.outbox
    ensures var r' := r.(now := now, appends := r.appends + 1, table := WithEvent(db, id, draft, now).outbox);
            Outbox.Append(r, r', id, |Past(history, id)| + 1, now)
  {
    hide Consistent, Ring.Append, Ring.NewRow, Ring.Tracks;
    AppendConsistent(db, history, id, draft, now);
    var n := |Past(history, id)| + 1;
    assert Ring.NextSeq(RingOf(db.rings, id).rows) == n;
    hide Ring.NextSeq, Past, RingOf;
    forall s: int ensures Outbox.Key(id, s) in db.outbox <==> 1 <= s < n {
      NumbersUsed(db.rings, db.outbox.Keys, history, id, s);
    }
  }

  lemma NumbersUsed(
      rings: map<string, Ring.Ring>, outbox: set<Outbox.Key>, history: map<string, seq<Ring.Row>>, id: string, s: int)
    requires Consistent(rings, outbox, history)
    ensures Outbox.Key(id, s) in outbox <==> 1 <= s <= |Past(history, id)|
  {
    hide Ring.Tracks;
  }

  lemma ConsistentAt(rings: map<string, Ring.Ring>, outbox: set<Outbox.Key>, history: map<string, seq<Ring.Row>>,
                     id: string)
    requires Consistent(rings, outbox, history)
    ensures Ring.Tracks(Past(history, id), RingOf(rings, id))
  {
  }

  lemma FreshConsistent()
    ensures Consistent(map[], {}, map[])
  {
    Ring.FreshTracks();
  }

  /** What the statistics say in every valid store: kept plus dropped is everything ever appended, the survivors are
      numbered from just past the cut to the newest, and the budgets hold unless one event is all there is. */
  lemma StatsConserve(store: Storage, id: string)
    requires store.Valid()
    ensures var st, n := store.Stats(id), |Past(store.history, id)|;
            st.count + st.dropped == n
            && st.count == |RingOf(store.rings, id).rows| && st.bytes == Ring.Sum(RingOf(store.rings, id).rows)
            && st.truncatedBefore == (if st.dropped == 0 then None else Some(st.dropped))
            && st.newest == (if n == 0 then None else Some(n))
            && st.oldest == (if n == 0 then None else Some(st.dropped + 1))
            && st.count <= Ring.MAX_RING_EVENTS && (st.bytes <= Ring.MAX_RING_BYTES || st.count == 1)
            && (n > 0 ==> st.count > 0)
  {
    var ring, past := RingOf(store.rings, id), Past(store.history, id);
    assert Ring.Tracks(past, ring);
    if ring.rows != [] {
      assert ring.rows[0] == past[|past| - |ring.rows|] && ring.rows[|ring.rows| - 1] == past[|past| - 1];
    }
  }

  /** Marking stamps exactly the pending entries of the list. */
  lemma {:induction false} MarkAllMeans(t: Outbox.Table, entries: seq<Outbox.Key>, now: int, k: Outbox.Key)
    ensures MarkAll(t, entries, now).Keys == t.Keys
    ensures k in t ==>
              var row, row' := t[k], MarkAll(t, entries, now)[k];
              row'.enqueuedAt == row.enqueuedAt
              && row'.publishedAt == if row.publishedAt == None && k in entries then Some(now) else row.publishedAt
  {
    if entries != [] { MarkAllMeans(Outbox.Mark(t, entries[0], now), entries[1..], now, k); }
  }

  /** In every valid store each number ever assigned has exactly one outbox row, so the rows are as many as the
      appends of each workflow, pending or published. */
  lemma OutboxRowPerAppend(store: Storage, id: string)
    requires store.Valid()
    ensures var keys := set k | k in store.outbox && k.workflow == id;
            |keys| == |Past(store.history, id)|
  {
    var n := |Past(store.history, id)|;
    var keys := set k | k in store.outbox && k.workflow == id;
    CountKeys(id, n);
    assert keys == KeysUpTo(id, n) by {
      forall k ensures k in keys <==> k in KeysUpTo(id, n) {
        if k.workflow == id { assert k == Outbox.Key(id, k.seqNo); }
      }
    }
  }

  function KeysUpTo(id: string, n: nat): set<Outbox.Key> {
    set s | 1 <= s <= n :: Outbox.Key(id, s)
  }

  lemma {:induction false} CountKeys(id: string, n: nat)
    ensures |KeysUpTo(id, n)| == n
  {
    if n > 0 {
      CountKeys(id, n - 1);
      assert KeysUpTo(id, n) == KeysUpTo(id, n - 1) + {Outbox.Key(id, n)};
    }
  }
}

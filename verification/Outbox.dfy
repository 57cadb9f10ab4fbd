/** The outbox table, the drain order, and a relay that drains, hands over, marks, and may crash
    anywhere in between. */
module Outbox {
  import opened Prelude

  /** The table's primary key. */
  datatype Key = Key(workflow: string, seqNo: int)

  datatype Row = Row(enqueuedAt: int, publishedAt: Option<int>)

  type Table = map<Key, Row>

  predicate Pending(t: Table, k: Key) { k in t && t[k].publishedAt == None }

  function PendingKeys(t: Table): set<Key> { set k | k in t && t[k].publishedAt == None }

  /** `ORDER BY enqueued_at_millis, workflow_id, seq_no`. */
  predicate Before(t: Table, a: Key, b: Key)
    requires a in t && b in t
  {
    t[a].enqueuedAt < t[b].enqueuedAt
    || (t[a].enqueuedAt == t[b].enqueuedAt
        && (Less(a.workflow, b.workflow) || (a.workflow == b.workflow && a.seqNo < b.seqNo)))
  }

  /** What the drain query answers: the first `limit` pending entries in that order. */
  ghost predicate IsDrain(t: Table, limit: nat, batch: seq<Key>) {
    |batch| <= limit
    && (forall i :: 0 <= i < |batch| ==> Pending(t, batch[i]))
    && (forall i, j :: 0 <= i < j < |batch| ==> Before(t, batch[i], batch[j]))
    && (forall k :: Pending(t, k) && k !in batch ==>
          |batch| == limit && forall i :: 0 <= i < |batch| ==> Before(t, batch[i], k))
  }

  /** One UPDATE of `outbox_mark_published`. */
  function Mark(t: Table, k: Key, now: int): Table {
    if Pending(t, k) then t[k := t[k].(publishedAt := Some(now))] else t
  }

  lemma BeforeIsOrder(t: Table, a: Key, b: Key, c: Key)
    requires a in t && b in t && c in t
    ensures a == b || Before(t, a, b) || Before(t, b, a)
    ensures !(Before(t, a, b) && Before(t, b, a)) && !Before(t, a, a)
    ensures Before(t, a, b) && Before(t, b, c) ==> Before(t, a, c)
  {
    LessTrichotomy(a.workflow, b.workflow);
    LessTrichotomy(a.workflow, a.workflow);
    if Less(a.workflow, b.workflow) && Less(b.workflow, c.workflow) {
      LessTransitive(a.workflow, b.workflow, c.workflow);
    }
  }

  lemma FirstOf(t: Table, keys: set<Key>) returns (first: Key)
    requires keys != {} && forall k :: k in keys ==> k in t
    ensures first in keys && forall k :: k in keys && k != first ==> Before(t, first, k)
  {
    first :| first in keys;
    if keys != {first} {
      var rest := keys - {first};
      var other := FirstOf(t, rest);
      BeforeIsOrder(t, first, other, other);
      if Before(t, other, first) {
        first := other;
      } else {
        forall k | k in keys && k != first ensures Before(t, first, k) {
          if k != other { BeforeIsOrder(t, first, other, k); }
        }
      }
    }
  }

  /** `outbox_drain`. */
  method Drain(t: Table, limit: nat) returns (batch: seq<Key>)
    ensures IsDrain(t, limit, batch)
    ensures forall i, j :: 0 <= i < j < |batch| ==>
              var a, b := batch[i], batch[j];
              a in t && b in t && t[a].enqueuedAt <= t[b].enqueuedAt
              && (t[a].enqueuedAt == t[b].enqueuedAt ==>
                    Less(a.workflow, b.workflow) || (a.workflow == b.workflow && a.seqNo < b.seqNo))
  {
    batch := [];
    var left := PendingKeys(t);
    while |batch| < limit && left != {}
      invariant |batch| <= limit
      invariant forall i :: 0 <= i < |batch| ==> Pending(t, batch[i])
      invariant forall k :: k in left <==> Pending(t, k) && k !in batch
      invariant forall i, j :: 0 <= i < j < |batch| ==> Before(t, batch[i], batch[j])
      invariant forall i, k :: 0 <= i < |batch| && k in left ==> Before(t, batch[i], k)
      decreases left
    {
      ghost var f := FirstOf(t, left);
      var k :| k in left && forall j :: j in left && j != k ==> Before(t, k, j);
      batch := batch + [k];
      left := left - {k};
    }
  }

  // --- order within a workflow, and when it needs a clock that never goes back --------------

  /** Each entry's earlier siblings are published already or stand before it in the batch. */
  ghost predicate SequenceFirst(t: Table, batch: seq<Key>) {
    forall i, k :: 0 <= i < |batch| && Pending(t, k) && k.workflow == batch[i].workflow && k.seqNo < batch[i].seqNo
      ==> k in batch[..i]
  }

  ghost predicate ClockKept(t: Table) {
    forall a, b :: Pending(t, a) && Pending(t, b) && a.workflow == b.workflow && a.seqNo < b.seqNo
      ==> t[a].enqueuedAt <= t[b].enqueuedAt
  }

  lemma ClockKeptOrders(t: Table, limit: nat, batch: seq<Key>)
    requires ClockKept(t) && IsDrain(t, limit, batch)
    ensures SequenceFirst(t, batch)
  {
    forall i, k | 0 <= i < |batch| && Pending(t, k) && k.workflow == batch[i].workflow && k.seqNo < batch[i].seqNo
      ensures k in batch[..i]
    {
      BeforeIsOrder(t, k, batch[i], batch[i]);
      assert k in batch;
      var j :| 0 <= j < |batch| && batch[j] == k;
      assert j < i && batch[..i][j] == k;
    }
  }

  /** Drains hand a workflow's entries out in sequence order, whatever the limit, exactly when no two
      pending entries of one workflow were stamped by a clock that went back between them. */
  lemma OrderedIffClockKept(t: Table)
    ensures ClockKept(t) <==> forall limit: nat, batch :: IsDrain(t, limit, batch) ==> SequenceFirst(t, batch)
  {
    if ClockKept(t) {
      forall limit: nat, batch | IsDrain(t, limit, batch) ensures SequenceFirst(t, batch) {
        ClockKeptOrders(t, limit, batch);
      }
    } else {
      var a, b :| Pending(t, a) && Pending(t, b) && a.workflow == b.workflow && a.seqNo < b.seqNo
                  && t[b].enqueuedAt < t[a].enqueuedAt;
      var batch := DrainExists(t, PendingKeys(t));
      assert forall k :: k in PendingKeys(t) <==> Pending(t, k);
      assert forall i :: 0 <= i < |batch| ==> batch[i] in PendingKeys(t);
      assert IsDrain(t, |batch|, batch);
      assert b in batch;
      var j :| 0 <= j < |batch| && batch[j] == b;
      assert forall i :: 0 <= i < j ==> Before(t, batch[i], batch[j]) && batch[..j][i] == batch[i];
      assert a !in batch[..j];
      assert !SequenceFirst(t, batch);
    }
  }

  /** All the keys of a set, in drain order. */
  lemma DrainExists(t: Table, keys: set<Key>) returns (batch: seq<Key>)
    requires forall k :: k in keys ==> k in t
    ensures forall k :: k in keys <==> k in batch
    ensures forall i, j :: 0 <= i < j < |batch| ==> Before(t, batch[i], batch[j])
  {
    if keys == {} {
      batch := [];
    } else {
      var first := FirstOf(t, keys);
      var rest := DrainExists(t, keys - {first});
      batch := [first] + rest;
      forall i, j | 0 <= i < j < |batch| ensures Before(t, batch[i], batch[j]) {
        if i == 0 { assert batch[j] in rest; }
      }
    }
  }

  // --- the relay ----------------------------------------------------------------------------

  /** Appends so far per workflow, the table, the batch in the relay's memory with how much of it was
      handed over, what reached the consumer, and what the consumer took as new. */
  datatype Relay = Relay(
    now: int, table: Table, appends: nat, batch: seq<Key>, handed: nat, stream: seq<Key>, processed: seq<Key>)

  const START := Relay(0, map[], 0, [], 0, [], [])

  /** An append in the storage transaction: the next number of that workflow, stamped with whatever the clock shows. */
  ghost predicate Append(r: Relay, r': Relay, workflow: string, seqNo: int, now: int) {
    seqNo >= 1
    && (forall s: int :: 1 <= s < seqNo ==> Key(workflow, s) in r.table)
    && (forall s: int :: s >= seqNo ==> Key(workflow, s) !in r.table)
    && r' == r.(now := now, appends := r.appends + 1, table := r.table[Key(workflow, seqNo) := Row(now, None)])
  }

  ghost predicate Poll(r: Relay, r': Relay, limit: nat, batch: seq<Key>) {
    IsDrain(r.table, limit, batch) && r' == r.(batch := batch, handed := 0)
  }

  /** The consumer drops a key it has seen. */
  ghost predicate HandOver(r: Relay, r': Relay) {
    r.handed < |r.batch|
    && var k := r.batch[r.handed];
       r' == r.(handed := r.handed + 1, stream := r.stream + [k],
                processed := if k in r.processed then r.processed else r.processed + [k])
  }

  ghost predicate MarkOne(r: Relay, r': Relay, i: nat, now: int) {
    i < r.handed <= |r.batch| && r' == r.(now := now, table := Mark(r.table, r.batch[i], now))
  }

  ghost predicate Crash(r: Relay, r': Relay) { r' == r.(batch := [], handed := 0) }

  ghost predicate Next(r: Relay, r': Relay) {
    (exists w, s, now :: Append(r, r', w, s, now))
    || (exists limit, batch :: Poll(r, r', limit, batch))
    || HandOver(r, r')
    || (exists i, now :: MarkOne(r, r', i, now))
    || Crash(r, r')
  }

  ghost predicate InOrder(done: seq<Key>) {
    forall i :: 0 <= i < |done| ==>
      done[i].seqNo >= 1 && (done[i].seqNo > 1 ==> Key(done[i].workflow, done[i].seqNo - 1) in done[..i])
  }

  ghost predicate Stamped(t: Table) {
    forall a, b :: a in t && b in t && a.workflow == b.workflow && a.seqNo < b.seqNo
      ==> t[a].enqueuedAt <= t[b].enqueuedAt
  }

  // --- what holds whatever the clock does -----------------------------------------------------------

  ghost predicate TableOk(t: Table, appends: nat) {
    |t| == appends
    && (forall k :: k in t ==> k.seqNo >= 1)
    && (forall w: string, s: int, u: int :: Key(w, s) in t && 1 <= u < s ==> Key(w, u) in t)
  }

  ghost predicate NoneLost(t: Table, stream: seq<Key>, done: seq<Key>) {
    (forall k :: k in t ==> k in done || Pending(t, k))
    && (forall k :: k in done ==> k in t)
    && (forall k :: k in done <==> k in stream)
  }

  ghost predicate BatchOk(t: Table, batch: seq<Key>, handed: nat, done: seq<Key>) {
    handed <= |batch|
    && (forall i :: 0 <= i < handed ==> batch[i] in done)
    && (forall k :: k in batch ==> k in t)
  }

  ghost predicate Distinct(done: seq<Key>) { forall i, j :: 0 <= i < j < |done| ==> done[i] != done[j] }

  ghost predicate Inv(r: Relay) {
    TableOk(r.table, r.appends)
    && NoneLost(r.table, r.stream, r.processed)
    && BatchOk(r.table, r.batch, r.handed, r.processed)
    && Distinct(r.processed)
  }

  lemma AppendKeeps(r: Relay, r': Relay, w: string, s: int, now: int)
    requires Inv(r) && Append(r, r', w, s, now)
    ensures Inv(r')
  {
    hide Distinct;
    assert forall x :: x in r.table && x.workflow == w ==> x == Key(w, x.seqNo) && x.seqNo < s;
    assert TableOk(r'.table, r'.appends) by { hide BatchOk, NoneLost; }
    assert NoneLost(r'.table, r.stream, r.processed) && BatchOk(r'.table, r.batch, r.handed, r.processed) by {
      hide TableOk;
    }
  }

  lemma PollKeeps(r: Relay, r': Relay, limit: nat, batch: seq<Key>)
    requires Inv(r) && Poll(r, r', limit, batch)
    ensures Inv(r')
  {
    hide TableOk, NoneLost, Distinct;
  }

  lemma HandOverKeeps(r: Relay, r': Relay)
    requires Inv(r) && HandOver(r, r')
    ensures Inv(r')
  {
    hide TableOk;
    var k := r.batch[r.handed];
    assert k in r.batch && k in r.table;
    assert forall x :: x in r'.processed <==> x in r.processed || x == k;
    assert forall x :: x in r'.stream <==> x in r.stream || x == k;
    assert NoneLost(r.table, r'.stream, r'.processed) by { hide BatchOk, Distinct; }
    assert BatchOk(r.table, r.batch, r'.handed, r'.processed) by { hide NoneLost, Distinct; }
    hide NoneLost, BatchOk;
  }

  lemma MarkOneKeeps(r: Relay, r': Relay, i: nat, now: int)
    requires Inv(r) && MarkOne(r, r', i, now)
    ensures Inv(r')
  {
    hide Distinct;
    assert r.batch[i] in r.batch && r.batch[i] in r.processed;
    assert r'.table.Keys == r.table.Keys;
    assert |r'.table| == |r'.table.Keys| == |r.table.Keys| == |r.table|;
    assert TableOk(r'.table, r.appends) by { hide BatchOk, NoneLost; }
    assert NoneLost(r'.table, r.stream, r.processed) by { hide BatchOk, TableOk; }
    assert BatchOk(r'.table, r.batch, r.handed, r.processed) by { hide TableOk, NoneLost; }
  }

  lemma CrashKeeps(r: Relay, r': Relay)
    requires Inv(r) && Crash(r, r')
    ensures Inv(r')
  {
  }

  lemma StartKeeps()
    ensures Inv(START)
  {
  }

  lemma NextKeeps(r: Relay, r': Relay)
    requires Inv(r) && Next(r, r')
    ensures Inv(r')
  {
    hide Inv, Append, Poll, HandOver, MarkOne;
    if w, s, now :| Append(r, r', w, s, now) {
      AppendKeeps(r, r', w, s, now);
    } else if limit, batch :| Poll(r, r', limit, batch) {
      PollKeeps(r, r', limit, batch);
    } else if HandOver(r, r') {
      HandOverKeeps(r, r');
    } else if i, now :| MarkOne(r, r', i, now) {
      MarkOneKeeps(r, r', i, now);
    } else {
      CrashKeeps(r, r');
    }
  }

  ghost predicate Run(states: seq<Relay>) {
    states != [] && states[0] == START && forall i :: 0 < i < |states| ==> Next(states[i - 1], states[i])
  }

  lemma {:induction false} RunKeeps(states: seq<Relay>)
    requires Run(states)
    ensures Inv(states[|states| - 1])
  {
    hide Next, Inv;
    var n := |states| - 1;
    if n == 0 {
      StartKeeps();
    } else {
      RunKeeps(states[..n]);
      NextKeeps(states[n - 1], states[n]);
    }
  }

  /** After any run of appends, drains, hand-overs, marks and crashes, under any clock: an entry the consumer has not
      taken is still pending; nothing is taken twice; and pending plus published entries are exactly the appends. */
  lemma RelayLosesNothing(states: seq<Relay>)
    requires Run(states)
    ensures var r := states[|states| - 1];
            (forall k :: k in r.table ==> k in r.processed || Pending(r.table, k))
            && (forall k :: k in r.stream <==> k in r.processed)
            && (forall k :: k in r.processed ==> k in r.table)
            && (forall i, j :: 0 <= i < j < |r.processed| ==> r.processed[i] != r.processed[j])
            && |PendingKeys(r.table)| + |r.table.Keys - PendingKeys(r.table)| == r.appends
  {
    hide Next;
    RunKeeps(states);
    var r := states[|states| - 1];
    var p := PendingKeys(r.table);
    assert p + (r.table.Keys - p) == r.table.Keys;
    assert |r.table| == |r.table.Keys|;
  }

  // --- what needs a clock that never goes back ------------------------------------------------------

  ghost predicate ClockOk(t: Table, now: int) { Stamped(t) && forall k :: k in t ==> t[k].enqueuedAt <= now }

  /** Earlier siblings of a batch entry were taken or stand before it in the batch. */
  ghost predicate BatchOrdered(t: Table, batch: seq<Key>, done: seq<Key>) {
    forall i, k :: 0 <= i < |batch| && k in t && k.workflow == batch[i].workflow && k.seqNo < batch[i].seqNo
      ==> k in done || k in batch[..i]
  }

  ghost predicate Ordered(r: Relay) {
    ClockOk(r.table, r.now) && BatchOrdered(r.table, r.batch, r.processed) && InOrder(r.processed)
  }

  lemma AppendOrders(r: Relay, r': Relay, w: string, s: int, now: int)
    requires Inv(r) && Ordered(r) && Append(r, r', w, s, now) && r.now <= now
    ensures Ordered(r')
  {
    hide InOrder, Distinct, NoneLost;
    assert forall x :: x in r.table && x.workflow == w ==> x == Key(w, x.seqNo) && x.seqNo < s;
    assert ClockOk(r'.table, now) by { hide BatchOk, BatchOrdered, TableOk; }
    forall i, k | 0 <= i < |r.batch| && k in r'.table && k.workflow == r.batch[i].workflow && k.seqNo < r.batch[i].seqNo
      ensures k in r.processed || k in r.batch[..i]
    {
      assert r.batch[i] in r.table;
    }
  }

  lemma PollOrders(r: Relay, r': Relay, limit: nat, batch: seq<Key>)
    requires Inv(r) && Ordered(r) && Poll(r, r', limit, batch)
    ensures Ordered(r')
  {
    hide InOrder, Distinct;
    assert ClockKept(r.table);
    ClockKeptOrders(r.table, limit, batch);
    assert BatchOrdered(r.table, batch, r.processed);
  }

  lemma InOrderSnoc(done: seq<Key>, k: Key)
    requires InOrder(done) && k.seqNo >= 1 && (k.seqNo > 1 ==> Key(k.workflow, k.seqNo - 1) in done)
    ensures InOrder(done + [k])
  {
    var more := done + [k];
    forall i | 0 <= i < |more|
      ensures more[i].seqNo >= 1 && (more[i].seqNo > 1 ==> Key(more[i].workflow, more[i].seqNo - 1) in more[..i])
    {
      assert more[..i] == done[..i];
    }
  }

  lemma HandOverOrders(r: Relay, r': Relay)
    requires Inv(r) && Ordered(r) && HandOver(r, r')
    ensures Ordered(r')
  {
    hide ClockOk, NoneLost, InOrder, Distinct;
    var done, k := r.processed, r.batch[r.handed];
    assert k in r.batch && k in r.table;
    assert BatchOrdered(r.table, r.batch, r'.processed) by { assert forall x :: x in done ==> x in r'.processed; }
    if k !in done {
      var p := Key(k.workflow, k.seqNo - 1);
      if k.seqNo > 1 {
        assert Key(k.workflow, k.seqNo) == k;
        assert p in r.table;
        assert p in done;
      }
      InOrderSnoc(done, k);
    }
  }

  lemma MarkOneOrders(r: Relay, r': Relay, i: nat, now: int)
    requires Ordered(r) && MarkOne(r, r', i, now) && r.now <= now
    ensures Ordered(r')
  {
    hide InOrder;
    assert r'.table.Keys == r.table.Keys;
    assert ClockOk(r'.table, now) by { hide BatchOrdered; }
    assert BatchOrdered(r'.table, r.batch, r.processed) by { hide ClockOk; }
  }

  lemma NextOrders(r: Relay, r': Relay)
    requires Inv(r) && Ordered(r) && Next(r, r') && r.now <= r'.now
    ensures Ordered(r')
  {
    hide Inv, Ordered, Poll, HandOver;
    if w, s, now :| Append(r, r', w, s, now) {
      AppendOrders(r, r', w, s, now);
    } else if limit, batch :| Poll(r, r', limit, batch) {
      PollOrders(r, r', limit, batch);
    } else if HandOver(r, r') {
      HandOverOrders(r, r');
    } else if i, now :| MarkOne(r, r', i, now) {
      MarkOneOrders(r, r', i, now);
    } else {
      CrashOrders(r, r');
    }
  }

  lemma CrashOrders(r: Relay, r': Relay)
    requires Ordered(r) && Crash(r, r')
    ensures Ordered(r')
  {
    hide InOrder, ClockOk;
  }

  lemma StartOrders()
    ensures Ordered(START)
  {
  }

  ghost predicate ClockForward(states: seq<Relay>) {
    forall i :: 0 < i < |states| ==> states[i - 1].now <= states[i].now
  }

  lemma {:induction false} RunOrders(states: seq<Relay>)
    requires Run(states) && ClockForward(states)
    ensures Ordered(states[|states| - 1])
  {
    hide Next, Inv, Ordered;
    var n := |states| - 1;
    if n == 0 {
      StartOrders();
    } else {
      RunOrders(states[..n]);
      RunKeeps(states[..n]);
      NextOrders(states[n - 1], states[n]);
    }
  }

  /** While the clock never goes back, the consumer takes each workflow's entries as 1, 2, 3 and so on. */
  lemma RelayKeepsOrder(states: seq<Relay>)
    requires Run(states) && ClockForward(states)
    ensures InOrder(states[|states| - 1].processed)
  {
    hide Next, InOrder, ClockOk, BatchOrdered;
    RunOrders(states);
  }

  /** Two appends with a clock that goes back, a drain of one entry, and its hand-over. */
  function BackState(w: string, first: int, second: int, i: nat): Relay {
    var a, b := Key(w, 1), Key(w, 2);
    var t1: Table := map[a := Row(first, None)];
    var t2: Table := map[a := Row(first, None), b := Row(second, None)];
    if i == 0 then START
    else if i == 1 then START.(now := first, appends := 1, table := t1)
    else if i == 2 then START.(now := second, appends := 2, table := t2)
    else if i == 3 then START.(now := second, appends := 2, table := t2, batch := [b])
    else START.(now := second, appends := 2, table := t2, batch := [b], handed := 1, stream := [b], processed := [b])
  }

  lemma BackAppends(w: string, first: int, second: int)
    ensures Append(BackState(w, first, second, 0), BackState(w, first, second, 1), w, 1, first)
    ensures Append(BackState(w, first, second, 1), BackState(w, first, second, 2), w, 2, second)
  {
    assert BackState(w, first, second, 2).table == BackState(w, first, second, 1).table[Key(w, 2) := Row(second, None)];
  }

  lemma BackPolls(w: string, first: int, second: int)
    requires second < first
    ensures Poll(BackState(w, first, second, 2), BackState(w, first, second, 3), 1, [Key(w, 2)])
    ensures !ClockKept(BackState(w, first, second, 2).table)
  {
    var t := BackState(w, first, second, 2).table;
    assert Pending(t, Key(w, 1)) && Pending(t, Key(w, 2));
  }

  lemma BackHands(w: string, first: int, second: int)
    ensures HandOver(BackState(w, first, second, 3), BackState(w, first, second, 4))
    ensures !InOrder([Key(w, 2)])
  {
    assert [] + [Key(w, 2)] == [Key(w, 2)];
    assert Key(w, 1) !in [Key(w, 2)][..0];
  }

  /** Any two appends between which the clock went back make a table that is not kept, and a drain of one entry then
      hands the second one out first. */
  lemma ClockBackReorders(w: string, first: int, second: int)
    requires second < first
    ensures exists states: seq<Relay> :: Run(states)
              && states[|states| - 1].processed == [Key(w, 2)] && !ClockKept(states[|states| - 1].table)
              && !InOrder(states[|states| - 1].processed)
  {
    BackAppends(w, first, second);
    BackPolls(w, first, second);
    BackHands(w, first, second);
    var states := seq(5, i requires 0 <= i < 5 => BackState(w, first, second, i));
    hide Append, Poll, HandOver, MarkOne, Crash, ClockKept, InOrder;
    forall i | 0 < i < |states| ensures Next(states[i - 1], states[i]) {
      assert i == 1 || i == 2 || i == 3 || i == 4;
    }
    assert Run(states);
  }
}

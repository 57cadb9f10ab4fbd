/** What a call about to run a statement can still come to, over every way the system may go on: when a repeat answer
    can be trusted, and when a win is in time. */
module RepeatsAndDeadlines {
  import opened Prelude
  import opened Requests
  import opened SingleResolve
  import opened Storage

  // --- ways to go on ----------------------------------------------------------------------------

  ghost predicate Path(s: System, states: seq<System>, moves: seq<Move>) {
    |states| == |moves| + 1 && states[0] == s
    && forall i :: 0 <= i < |moves| ==> Enabled(states[i], moves[i]) && states[i + 1] == Apply(states[i], moves[i])
  }

  ghost predicate Reachable(s: System) {
    exists states: seq<System>, moves: seq<Move> :: Run(states, moves) && states[|moves|] == s
  }

  lemma ReachableInv(s: System)
    requires Reachable(s)
    ensures Inv(s)
  {
    hide Inv, Enabled, Apply;
    var states: seq<System>, moves: seq<Move> :| Run(states, moves) && states[|moves|] == s;
    RunKeepsInv(states, moves);
  }

  /** A path along which call `p` is alive until the last move, which is its own. */
  ghost predicate EndsWith(states: seq<System>, moves: seq<Move>, p: nat, last: Move) {
    |states| == |moves| + 1 && moves != [] && moves[|moves| - 1] == last
    && forall i :: 0 <= i < |moves| ==> p in states[i].calls
  }

  /** The last move answers the call's input as a repeat. */
  ghost predicate Repeats(states: seq<System>, moves: seq<Move>, p: nat) {
    EndsWith(states, moves, p, ExplainRow(p)) && |states[|moves|].replies| > |states[|moves| - 1].replies|
  }

  /** The last move is the call's winning UPDATE. */
  ghost predicate Wins(states: seq<System>, moves: seq<Move>, p: nat) {
    EndsWith(states, moves, p, ResolveRow(p)) && |states[|moves|].wins| > |states[|moves| - 1].wins|
  }

  ghost predicate Alive(states: seq<System>, p: nat) { forall i :: 0 <= i < |states| ==> p in states[i].calls }

  lemma Start(s: System, p: nat) returns (states: seq<System>, moves: seq<Move>)
    requires p in s.calls
    ensures Path(s, states, moves) && |states| == |moves| + 1 && states[|moves|] == s && Alive(states, p)
  {
    states, moves := [s], [];
  }

  lemma Extend(s: System, states: seq<System>, moves: seq<Move>, p: nat, m: Move)
      returns (states': seq<System>, moves': seq<Move>)
    requires Path(s, states, moves) && |states| == |moves| + 1 && Alive(states, p) && Enabled(states[|moves|], m)
    ensures Path(s, states', moves') && |states'| == |moves'| + 1 && |moves'| == |moves| + 1
    ensures states'[|moves'| - 1] == states[|moves|] && states'[|moves'|] == Apply(states[|moves|], m)
    ensures EndsWith(states', moves', p, m)
    ensures p in states'[|moves'|].calls ==> Alive(states', p)
  {
    hide Enabled, Apply;
    states', moves' := states + [Apply(states[|moves|], m)], moves + [m];
  }

  // --- repeats ----------------------------------------------------------------------------------

  predicate Settled(t: Table, key: string) { key in t && t[key].state != State.Pending }

  /** From its second UPDATE on: the row is there, and a call past that UPDATE without a win knows it settled. */
  ghost predicate RowKnown(s: System, p: nat, key: string) {
    p in s.calls && s.calls[p].key == key && key in s.table
    && (s.calls[p].phase == Resolving || Late(s.calls[p].phase)
        || (s.calls[p].phase == Explaining && Settled(s.table, key)))
  }

  lemma RowKnownStep(s: System, m: Move, p: nat, key: string)
    requires RowKnown(s, p, key) && Enabled(s, m) && p in Apply(s, m).calls
    ensures RowKnown(Apply(s, m), p, key)
  {
    TableEvolves(s, m);
    if MoveOf(m, p) {
      hide ExpireAll, ExpireOne, StorageKey, Accepted, Explain, LostBy, GateOpen;
    } else {
      OthersStay(s, m, p);
      hide Apply, Enabled;
    }
  }

  lemma {:induction false} RowKnownAlong(s: System, states: seq<System>, moves: seq<Move>, p: nat, key: string)
    requires Path(s, states, moves) && RowKnown(s, p, key) && Alive(states, p)
    ensures RowKnown(states[|moves|], p, key)
  {
    hide RowKnown, Enabled, Apply;
    if moves != [] {
      var n := |moves| - 1;
      RowKnownAlong(s, states[..n + 1], moves[..n], p, key);
      assert p in states[n + 1].calls;
      RowKnownStep(states[n], moves[n], p, key);
    }
  }

  /** Explaining a row that is settled, or answering nothing, is all that can follow. */
  lemma RepeatOfKnownRow(s: System, states: seq<System>, moves: seq<Move>, p: nat)
    requires Path(s, states, moves) && Repeats(states, moves, p)
    requires At(s, p, Resolving) && s.calls[p].key in s.table
    ensures Settled(states[|moves|].table, s.calls[p].key)
  {
    hide Enabled, Apply, RowKnown;
    var n := |moves| - 1;
    var key := s.calls[p].key;
    KnownNow(s, p);
    RowKnownAlong(s, states[..n + 1], moves[..n], p, key);
    KnownExplained(states[n], p, key);
  }

  lemma KnownNow(s: System, p: nat)
    requires At(s, p, Resolving) && s.calls[p].key in s.table
    ensures RowKnown(s, p, s.calls[p].key)
  {
  }

  lemma KnownExplained(s: System, p: nat, key: string)
    requires RowKnown(s, p, key) && Enabled(s, ExplainRow(p))
    ensures Settled(Apply(s, ExplainRow(p)).table, key)
  {
  }

  lemma FreshId(calls: map<nat, Call>) returns (q: nat)
    ensures forall p :: p in calls ==> p < q
  {
    q := 0;
    var left := calls.Keys;
    while left != {}
      invariant forall p :: p in calls ==> p in left || p < q
      decreases left
    {
      var p :| p in left;
      if q <= p { q := p + 1; }
      left := left - {p};
    }
  }

  /** A repeat answer for a row that is still pending. */
  ghost predicate FalseRepeat(states: seq<System>, moves: seq<Move>, p: nat, x: Ask) {
    Repeats(states, moves, p)
    && var s := states[|moves|];
       s.replies == states[|moves| - 1].replies + [Duplicate(x, false)]
       && StorageKey(x) in s.table && s.table[StorageKey(x)].state == State.Pending
  }

  function Claimer(x: Ask): Call { Call(Routed(x), StorageKey(x), "", Expiring, 0, false, Inserted, false) }

  lemma MissIs(s: System, p: nat)
    requires At(s, p, Resolving) && s.calls[p].key !in s.table
    ensures Enabled(s, ResolveRow(p))
    ensures Apply(s, ResolveRow(p)) == s.(calls := s.calls[p := s.calls[p].(phase := Explaining, there := false)])
  {
    hide ResolveOne;
  }

  /** A second call begins, passes the gate and makes the row. */
  lemma ClaimIs(s: System, q: nat, x: Ask)
    requires q !in s.calls && Accepted(x.id) && GateOpen(s.workflows, x.workflow) && StorageKey(x) !in s.table
    ensures Enabled(s, BeginInput(q, x))
    ensures var s1 := Apply(s, BeginInput(q, x));
            Enabled(s1, PassGate(q)) && At(s1, q, Gate) && s1.calls[q].origin == Routed(x)
            && s1.workflows == s.workflows
            && s1 == s.(calls := s.calls[q := s1.calls[q]])
            && var s2 := Apply(s1, PassGate(q));
               Enabled(s2, Move.Claim(q, true)) && At(s2, q, Claiming) && s2.calls[q].origin == Routed(x)
               && s2 == s.(calls := s.calls[q := s2.calls[q]])
               && Apply(s2, Move.Claim(q, true)) ==
                    s.(calls := s.calls[q := Claimer(x)],
                       table := s.table[StorageKey(x) := Fresh(x.workflow, Kind.Input, s.now, None)])
  {
    hide Accepted, StorageKey;
  }

  lemma MisleadIs(s: System, p: nat, x: Ask)
    requires At(s, p, Explaining) && s.calls[p].origin == Routed(x) && s.calls[p].key == StorageKey(x)
    requires s.calls[p].claim != Inserted && !s.calls[p].there
    requires StorageKey(x) in s.table && s.table[StorageKey(x)].state == State.Pending
    ensures Enabled(s, ExplainRow(p))
    ensures Apply(s, ExplainRow(p)) == s.(calls := s.calls - {p}, replies := s.replies + [Duplicate(x, false)])
  {
    hide StorageKey;
  }

  /** Where the five moves lead. */
  function Misled(s: System, p: nat, q: nat, x: Ask): System {
    s.(calls := (s.calls - {p})[q := Claimer(x)],
       table := s.table[StorageKey(x) := Fresh(x.workflow, Kind.Input, s.now, None)],
       replies := s.replies + [Duplicate(x, false)])
  }

  /** The call misses its row and a second call makes it: four moves, each of which the call survives. */
  lemma MissThenClaim(s: System, p: nat, q: nat, x: Ask)
    requires At(s, p, Resolving) && s.calls[p].origin == Routed(x) && s.calls[p].key == StorageKey(x)
    requires StorageKey(x) !in s.table && q !in s.calls
    requires Accepted(x.id) && GateOpen(s.workflows, x.workflow)
    ensures Enabled(s, ResolveRow(p))
    ensures var s1 := Apply(s, ResolveRow(p));
            Enabled(s1, BeginInput(q, x)) && p in s1.calls
            && var s2 := Apply(s1, BeginInput(q, x));
               Enabled(s2, PassGate(q)) && p in s2.calls
               && var s3 := Apply(s2, PassGate(q));
                  Enabled(s3, Move.Claim(q, true)) && p in s3.calls
                  && Apply(s3, Move.Claim(q, true)) ==
                       s.(calls := s.calls[p := s.calls[p].(phase := Explaining, there := false)][q := Claimer(x)],
                          table := s.table[StorageKey(x) := Fresh(x.workflow, Kind.Input, s.now, None)])
  {
    MissIs(s, p);
    hide Accepted, StorageKey, GateOpen, Apply, Enabled, Claimer, At;
    ClaimIs(Apply(s, ResolveRow(p)), q, x);
  }

  /** The row of a call's input is missing at its second UPDATE; before its SELECT, a second call for the same input
      makes it and gets no further. */
  lemma AbsentRowMisleads(s: System, p: nat, x: Ask) returns (states: seq<System>, moves: seq<Move>, q: nat)
    requires At(s, p, Resolving) && s.calls[p].origin == Routed(x) && s.calls[p].key == StorageKey(x)
    requires s.calls[p].claim != Inserted && StorageKey(x) !in s.table
    requires Accepted(x.id) && GateOpen(s.workflows, x.workflow)
    ensures Path(s, states, moves) && FalseRepeat(states, moves, p, x) && |states| == |moves| + 1
    ensures q !in s.calls && states[|moves|] == Misled(s, p, q, x)
  {
    hide Accepted, StorageKey, GateOpen, Path, Alive, EndsWith, Claimer, Apply, Enabled;
    q := FreshId(s.calls);
    MissThenClaim(s, p, q, x);
    states, moves := Start(s, p);
    states, moves := Extend(s, states, moves, p, ResolveRow(p));
    states, moves := Extend(s, states, moves, p, BeginInput(q, x));
    states, moves := Extend(s, states, moves, p, PassGate(q));
    states, moves := Extend(s, states, moves, p, Move.Claim(q, true));
    MisleadIs(states[|moves|], p, x);
    states, moves := Extend(s, states, moves, p, ExplainRow(p));
    assert states[|moves|].calls == (s.calls - {p})[q := Claimer(x)];
  }

  /** Every repeat the call can still give is for a settled row exactly when the row is there at its second UPDATE:
      otherwise some way to go on makes it give one for a row that is pending. A claim that made the row or met it
      suffices; a claim that failed for its own reason is what it takes. */
  lemma RepeatIsSettledIff(s: System, p: nat)
    requires Reachable(s) && At(s, p, Resolving) && s.calls[p].origin.Routed?
    ensures s.calls[p].key in s.table <==>
              forall states: seq<System>, moves: seq<Move> :: Path(s, states, moves) && Repeats(states, moves, p)
                ==> Settled(states[|moves|].table, s.calls[p].key)
    ensures s.calls[p].claim == Inserted || s.calls[p].claim == Met ==> s.calls[p].key in s.table
  {
    var c := s.calls[p];
    RowFacts(s, p);
    hide Path, Repeats, Reachable, Settled, Accepted, GateOpen;
    if c.key in s.table {
      forall states: seq<System>, moves: seq<Move> | Path(s, states, moves) && Repeats(states, moves, p)
        ensures Settled(states[|moves|].table, c.key)
      {
        RepeatOfKnownRow(s, states, moves, p);
      }
    } else {
      var states, moves, q := AbsentRowMisleads(s, p, c.origin.input);
      PendingNotSettled(states[|moves|].table, c.key);
    }
  }

  lemma PendingNotSettled(t: Table, key: string)
    requires key in t && t[key].state == State.Pending
    ensures !Settled(t, key)
  {
  }

  lemma RowFacts(s: System, p: nat)
    requires Reachable(s) && At(s, p, Resolving) && s.calls[p].origin.Routed?
    ensures var x := s.calls[p].origin.input;
            s.calls[p].key == StorageKey(x) && Accepted(x.id) && GateOpen(s.workflows, x.workflow)
    ensures HasRow(s.calls[p]) ==> s.calls[p].key in s.table
  {
    hide WinsMatch, OnTime, WinsOk, Owners, RowsOk, RecordsOk, RepliesOk, Accepted, GateOpen;
    ReachableInv(s);
  }

  lemma {:induction false} Join(a: seq<System>, m: seq<Move>, b: seq<System>, n: seq<Move>)
    requires Run(a, m) && |a| == |m| + 1 && Path(a[|m|], b, n)
    ensures Run(a + b[1..], m + n) && (a + b[1..])[|m + n|] == b[|n|] && |a + b[1..]| == |m + n| + 1
  {
    hide Enabled, Apply;
    var c, o := a + b[1..], m + n;
    forall i | 0 <= i < |o| ensures Enabled(c[i], o[i]) && c[i + 1] == Apply(c[i], o[i]) {
      if i >= |m| {
        assert o[i] == n[i - |m|] && c[i + 1] == b[i - |m| + 1] && c[i] == b[i - |m|];
      } else {
        assert o[i] == m[i] && c[i] == a[i] && c[i + 1] == a[i + 1];
      }
    }
  }

  // --- repeats of a row that another route won --------------------------------------------------

  /** A call that made its row itself passes the claim's error on and never answers a repeat. */
  predicate Maker(s: System, p: nat) {
    p in s.calls && s.calls[p].claim == Inserted && s.calls[p].phase != Gate && s.calls[p].phase != Claiming
  }

  lemma MakerStep(s: System, m: Move, p: nat)
    requires Maker(s, p) && Enabled(s, m) && p in Apply(s, m).calls
    ensures Maker(Apply(s, m), p)
  {
    if MoveOf(m, p) {
      hide ExpireAll, ExpireOne, ResolveOne, StorageKey, Accepted, Explain, LostBy, GateOpen;
    } else {
      OthersStay(s, m, p);
      hide Apply, Enabled;
    }
  }

  lemma {:induction false} MakerAlong(s: System, states: seq<System>, moves: seq<Move>, p: nat)
    requires Path(s, states, moves) && Maker(s, p) && Alive(states, p)
    ensures Maker(states[|moves|], p)
  {
    hide Maker, Enabled, Apply;
    if moves != [] {
      var n := |moves| - 1;
      MakerAlong(s, states[..n + 1], moves[..n], p);
      assert p in states[n + 1].calls;
      MakerStep(states[n], moves[n], p);
    }
  }

  lemma MakerNeverRepeats(s: System, states: seq<System>, moves: seq<Move>, p: nat)
    requires Path(s, states, moves) && Maker(s, p)
    ensures !Repeats(states, moves, p)
  {
    if EndsWith(states, moves, p, ExplainRow(p)) {
      hide Maker, Enabled, Apply;
      var n := |moves| - 1;
      MakerAlong(s, states[..n + 1], moves[..n], p);
      MakerExplains(states[n], p);
    }
  }

  lemma MakerExplains(s: System, p: nat)
    requires Maker(s, p) && Enabled(s, ExplainRow(p))
    ensures Apply(s, ExplainRow(p)).replies == s.replies
  {
  }

  lemma {:induction false} WonAlong(s: System, states: seq<System>, moves: seq<Move>, x: Ask)
    requires Path(s, states, moves) && RouteWon(s.table, x)
    ensures RouteWon(states[|moves|].table, x)
  {
    hide Enabled, Apply, StorageKey;
    if moves != [] {
      var n := |moves| - 1;
      WonAlong(s, states[..n + 1], moves[..n], x);
      TableEvolves(states[n], moves[n]);
    }
  }

  /** A call that met a settled row answers a repeat. */
  lemma SettledRepeats(s: System, p: nat)
    requires At(s, p, Resolving) && s.calls[p].origin.Routed? && s.calls[p].claim != Inserted
    requires Settled(s.table, s.calls[p].key)
    ensures Enabled(s, ResolveRow(p))
    ensures var s1 := Apply(s, ResolveRow(p));
            p in s1.calls && Enabled(s1, ExplainRow(p))
            && var s2 := Apply(s1, ExplainRow(p));
               s2 == s.(calls := s.calls - {p}, replies := s.replies + [Duplicate(s.calls[p].origin.input, true)])
               && s1.replies == s.replies
  {
    var s1 := Apply(s, ResolveRow(p));
    assert s1.calls - {p} == s.calls - {p};
  }

  /** A verdict under the key of a pending input settles its row, and not as the router would. */
  lemma VerdictSettles(s: System, p: nat, q: nat, x: Ask)
    requires p in s.calls && q !in s.calls
    requires StorageKey(x) in s.table && s.table[StorageKey(x)].state == State.Pending
    ensures Enabled(s, BeginVerdict(q, StorageKey(x), "approved"))
    ensures var s1 := Apply(s, BeginVerdict(q, StorageKey(x), "approved"));
            p in s1.calls && Enabled(s1, Expire(q))
            && var s2 := Apply(s1, Expire(q));
               p in s2.calls && Enabled(s2, ResolveRow(q))
               && var s3 := Apply(s2, ResolveRow(q));
                  p in s3.calls && s3.calls[p] == s.calls[p]
                  && Settled(s3.table, StorageKey(x)) && !RouteWon(s3.table, x)
  {
    hide StorageKey;
  }

  lemma RepeatOfSettled(s: System, states: seq<System>, moves: seq<Move>, p: nat, key: string)
      returns (states': seq<System>, moves': seq<Move>)
    requires Path(s, states, moves) && |states| == |moves| + 1 && Alive(states, p)
    requires var t := states[|moves|];
             At(t, p, Resolving) && t.calls[p].origin.Routed? && t.calls[p].claim != Inserted
             && t.calls[p].key == key && Settled(t.table, key)
    ensures Path(s, states', moves') && |states'| == |moves'| + 1 && Repeats(states', moves', p)
    ensures states'[|moves'|].table == states[|moves|].table
  {
    SettledRepeats(states[|moves|], p);
    hide Path, Alive, EndsWith, Apply, Enabled, At, Settled;
    states', moves' := Extend(s, states, moves, p, ResolveRow(p));
    states', moves' := Extend(s, states', moves', p, ExplainRow(p));
  }

  lemma RepeatOfVerdict(s: System, p: nat, x: Ask) returns (states: seq<System>, moves: seq<Move>)
    requires At(s, p, Resolving) && s.calls[p].origin == Routed(x) && s.calls[p].key == StorageKey(x)
    requires s.calls[p].claim != Inserted && StorageKey(x) in s.table && !RouteWon(s.table, x)
    ensures Path(s, states, moves) && |states| == |moves| + 1 && Repeats(states, moves, p)
    ensures !RouteWon(states[|moves|].table, x)
  {
    hide StorageKey, RouteWon, Path, Alive, Repeats, Apply, Enabled;
    states, moves := Start(s, p);
    if s.table[StorageKey(x)].state == State.Pending {
      var q := FreshId(s.calls);
      VerdictSettles(s, p, q, x);
      states, moves := Extend(s, states, moves, p, BeginVerdict(q, StorageKey(x), "approved"));
      states, moves := Extend(s, states, moves, p, Expire(q));
      states, moves := Extend(s, states, moves, p, ResolveRow(q));
    }
    states, moves := RepeatOfSettled(s, states, moves, p, StorageKey(x));
  }

  /** A repeat answer means that the command's own route won the row, so that the command started, is about to, or was
      lost with its call, exactly when the row was so won before the call's second UPDATE, or the call made the row
      itself and gives no repeat at all. Any approval request can name an input's row, so a row that is still pending
      can go either way. */
  lemma RepeatIsOwnIff(s: System, p: nat)
    requires Reachable(s) && At(s, p, Resolving) && s.calls[p].origin.Routed?
    ensures var x := s.calls[p].origin.input;
            s.calls[p].claim == Inserted || RouteWon(s.table, x) <==>
              forall states: seq<System>, moves: seq<Move> :: Path(s, states, moves) && Repeats(states, moves, p)
                ==> RouteWon(states[|moves|].table, x)
  {
    var c := s.calls[p];
    var x := c.origin.input;
    RowFacts(s, p);
    hide Path, Repeats, Reachable, RouteWon, Accepted, GateOpen, StorageKey;
    if c.claim == Inserted || RouteWon(s.table, x) {
      forall states: seq<System>, moves: seq<Move> | Path(s, states, moves) && Repeats(states, moves, p)
        ensures RouteWon(states[|moves|].table, x)
      {
        if c.claim == Inserted { MakerNeverRepeats(s, states, moves, p); } else { WonAlong(s, states, moves, x); }
      }
    } else if StorageKey(x) in s.table {
      var states, moves := RepeatOfVerdict(s, p, x);
    } else {
      var states, moves, q := AbsentRowMisleads(s, p, x);
      PendingNotWon(states[|moves|].table, x);
    }
  }

  lemma PendingNotWon(t: Table, x: Ask)
    requires StorageKey(x) in t && t[StorageKey(x)].state == State.Pending
    ensures !RouteWon(t, x)
  {
  }

  // --- runs that end in a vain repeat -----------------------------------------------------------

  function RefusedCall(x: Ask): Call { Call(Routed(x), StorageKey(x), "", Resolving, 0, false, Refused, false) }

  /** A call whose INSERT failed for its own reason and whose first UPDATE found no row. */
  lemma RefusedRun(x: Ask) returns (states: seq<System>, moves: seq<Move>)
    requires Accepted(x.id) && x.workflow != ""
    ensures Run(states, moves) && |states| == |moves| + 1
    ensures states[|moves|] == START.(workflows := map[x.workflow := Generic], calls := map[0 := RefusedCall(x)])
  {
    hide Accepted, StorageKey;
    states, moves := [START], [];
    states, moves := OneMore(states, moves, NewWorkflow(x.workflow, Generic));
    states, moves := OneMore(states, moves, BeginInput(0, x));
    states, moves := OneMore(states, moves, PassGate(0));
    states, moves := OneMore(states, moves, Move.Claim(0, false));
    states, moves := OneMore(states, moves, Expire(0));
    assert states[|moves|].calls == map[0 := RefusedCall(x)];
  }

  /** Nobody is working on an input, nothing touched it but the input route, nothing was lost, and yet a caller has been
      told that it is a repeat while its command has not started. */
  ghost predicate ToldInVain(s: System, x: Ask) {
    s.replies == [Duplicate(x, false)] && s.calls == map[] && s.starts == [] && s.lost == {}
    && StorageKey(x) in s.table && s.table[StorageKey(x)].state == State.Pending
  }

  /** Any input can end so: a first call's INSERT fails, a second call makes the row before the first one's SELECT and
      dies, and the SELECT answers a repeat for any row it finds. */
  lemma RepeatInVain(x: Ask)
    requires Accepted(x.id) && x.workflow != ""
    ensures exists states: seq<System>, moves: seq<Move> :: Run(states, moves) && ToldInVain(states[|moves|], x)
  {
    var a, m := RefusedRun(x);
    hide Accepted, StorageKey, Run, Path, FalseRepeat, Misled, Apply, Enabled;
    var b, n, q := AbsentRowMisleads(a[|m|], 0, x);
    Join(a, m, b, n);
    LastDrop(x, a[|m|], q);
    var states, moves := OneMore(a + b[1..], m + n, Drop({q}));
  }

  lemma LastDrop(x: Ask, s: System, q: nat)
    requires s == START.(workflows := map[x.workflow := Generic], calls := map[0 := RefusedCall(x)])
    ensures var t := Misled(s, 0, q, x); Enabled(t, Drop({q})) && ToldInVain(Apply(t, Drop({q})), x)
  {
    hide StorageKey;
    var t := Misled(s, 0, q, x);
    assert t.calls - {q} == map[];
    assert LostBy(t.calls, {q}) == {};
  }

  /** The claim of a call that makes its row and dies leaves nothing but the row. */
  lemma DeadClaim(x: Ask) returns (states: seq<System>, moves: seq<Move>)
    requires Accepted(x.id) && x.workflow != ""
    ensures Run(states, moves) && |states| == |moves| + 1
    ensures states[|moves|] ==
              START.(workflows := map[x.workflow := Generic],
                     table := map[StorageKey(x) := Fresh(x.workflow, Kind.Input, 0, None)])
  {
    hide Accepted, StorageKey;
    states, moves := [START], [];
    states, moves := OneMore(states, moves, NewWorkflow(x.workflow, Generic));
    states, moves := OneMore(states, moves, BeginInput(0, x));
    states, moves := OneMore(states, moves, PassGate(0));
    states, moves := OneMore(states, moves, Move.Claim(0, true));
    assert states[|moves|].calls == map[0 := Claimer(x)];
    states, moves := OneMore(states, moves, Drop({0}));
    assert states[|moves|].calls == map[];
  }

  function ApprovedRow(x: Ask): Request {
    Fresh(x.workflow, Kind.Input, 0, None).(state := State.Resolved, resolvedAt := Some(0), payload := Some("approved"))
  }

  /** A state in which an approval request has won an input's row and nothing is under way. */
  predicate WonByVerdict(s: System, x: Ask) {
    s.calls == map[] && s.starts == [] && s.lost == {} && s.replies == [] && s.records == []
    && s.workflows == map[x.workflow := Generic] && s.table == map[StorageKey(x) := ApprovedRow(x)]
  }

  lemma VerdictWins(x: Ask) returns (states: seq<System>, moves: seq<Move>)
    requires Accepted(x.id) && x.workflow != ""
    ensures Run(states, moves) && |states| == |moves| + 1 && WonByVerdict(states[|moves|], x)
  {
    hide Accepted, StorageKey;
    states, moves := DeadClaim(x);
    hide Run;
    states, moves := OneMore(states, moves, BeginVerdict(0, StorageKey(x), "approved"));
    states, moves := OneMore(states, moves, Expire(0));
    states, moves := OneMore(states, moves, ResolveRow(0));
    assert states[|moves|].table == map[StorageKey(x) := ApprovedRow(x)];
    assert states[|moves|].calls == map[];
  }

  /** A retry that meets the row and runs its first UPDATE. */
  lemma RetryMeets(x: Ask) returns (states: seq<System>, moves: seq<Move>)
    requires Accepted(x.id) && x.workflow != ""
    ensures Run(states, moves) && |states| == |moves| + 1 && At(states[|moves|], 0, Resolving)
    ensures var s := states[|moves|];
            WonByVerdict(s.(calls := map[]), x)
            && s.calls == map[0 := Call(Routed(x), StorageKey(x), "", Resolving, s.now, true, Met, false)]
  {
    hide Accepted, StorageKey;
    states, moves := VerdictWins(x);
    hide Run;
    states, moves := OneMore(states, moves, BeginInput(0, x));
    states, moves := OneMore(states, moves, PassGate(0));
    states, moves := OneMore(states, moves, Move.Claim(0, true));
    states, moves := OneMore(states, moves, Expire(0));
    assert states[|moves|].table == map[StorageKey(x) := ApprovedRow(x)];
  }

  /** Nobody is working on an input, nothing was lost, its row holds an approval's resolve, and a caller whose claim met
      the row has been told that its command, which never starts, is a repeat. */
  ghost predicate ToldApproved(s: System, x: Ask) {
    s.replies == [Duplicate(x, true)] && s.calls == map[] && s.starts == [] && s.lost == {}
    && StorageKey(x) in s.table && s.table[StorageKey(x)] == ApprovedRow(x)
  }

  /** Any input can end so: its first call dies after the claim, an approval request names its key, and the retry
      meets a settled row. */
  lemma ApprovedInputNeverStarts(x: Ask)
    requires Accepted(x.id) && x.workflow != ""
    ensures exists states: seq<System>, moves: seq<Move> :: Run(states, moves) && ToldApproved(states[|moves|], x)
  {
    hide Accepted, StorageKey;
    var states, moves := RetryMeets(x);
    hide Run, Apply, Enabled;
    SettledRepeats(states[|moves|], 0);
    states, moves := OneMore(states, moves, ResolveRow(0));
    states, moves := OneMore(states, moves, ExplainRow(0));
    assert states[|moves|].calls == map[];
  }

  // --- an input that nobody interferes with -----------------------------------------------------

  /** The moves one after the other, from a state in which each can be made. */
  ghost predicate Leads(s: System, moves: seq<Move>, t: System)
    decreases |moves|
  {
    if moves == [] then s == t else Enabled(s, moves[0]) && Leads(Apply(s, moves[0]), moves[1..], t)
  }

  lemma LeadsOne(s: System, m: Move, more: seq<Move>, t: System)
    requires Enabled(s, m) && Leads(Apply(s, m), more, t)
    ensures Leads(s, [m] + more, t)
  {
    assert ([m] + more)[1..] == more;
  }

  function InputCall(x: Ask, phase: Phase, at: int, saw: bool, claim: ClaimEnd): Call {
    Call(Routed(x), StorageKey(x), "", phase, at, saw, claim, false)
  }

  function WonInputRow(x: Ask, now: int): Request {
    Request(x.workflow, Kind.Input, now, None, State.Resolved, Some(now), Some(""))
  }

  /** What a delivered input leaves: its row, the win, one start, both records and the answer. */
  function AfterInput(s: System, x: Ask): System {
    s.(table := s.table[StorageKey(x) := WonInputRow(x, s.now)],
       wins := s.wins + [Win(StorageKey(x), "", s.now, s.now, true, Routed(x))],
       starts := s.starts + [x], records := s.records + [Record(x, false)] + [Record(x, true)],
       replies := s.replies + [Delivered(x)])
  }

  lemma InputWins(s: System, p: nat, x: Ask)
    requires p in s.calls && s.calls[p] == InputCall(x, Claiming, 0, false, NoClaim) && StorageKey(x) !in s.table
    ensures Enabled(s, Move.Claim(p, true))
    ensures var s1 := Apply(s, Move.Claim(p, true));
            Enabled(s1, Expire(p))
            && var s2 := Apply(s1, Expire(p));
               Enabled(s2, ResolveRow(p))
               && Apply(s2, ResolveRow(p)) ==
                    s.(table := s.table[StorageKey(x) := WonInputRow(x, s.now)],
                       wins := s.wins + [Win(StorageKey(x), "", s.now, s.now, true, Routed(x))],
                       calls := s.calls[p := InputCall(x, Starting, s.now, true, Inserted)])
  {
    hide StorageKey, Accepted, GateOpen;
    var s2 := Apply(Apply(s, Move.Claim(p, true)), Expire(p));
    assert s2.table == s.table[StorageKey(x) := Fresh(x.workflow, Kind.Input, s.now, None)];
    assert s2.calls == s.calls[p := InputCall(x, Resolving, s.now, true, Inserted)];
    var s3 := Apply(s2, ResolveRow(p));
    assert s3.table == s.table[StorageKey(x) := WonInputRow(x, s.now)];
    assert s3.calls == s.calls[p := InputCall(x, Starting, s.now, true, Inserted)];
  }

  /** What the command's start and its two records do. */
  lemma RunSteps(s: System, p: nat, x: Ask)
    requires p in s.calls && s.calls[p].origin == Routed(x)
    ensures s.calls[p].phase == Starting ==>
              Enabled(s, StartCommand(p))
              && Apply(s, StartCommand(p)) ==
                   s.(calls := s.calls[p := s.calls[p].(phase := RecordingStart)], starts := s.starts + [x])
    ensures s.calls[p].phase == RecordingStart ==>
              Enabled(s, RecordStart(p))
              && Apply(s, RecordStart(p)) ==
                   s.(calls := s.calls[p := s.calls[p].(phase := RecordingEnd)],
                      records := s.records + [Record(x, false)])
    ensures s.calls[p].phase == RecordingEnd ==>
              Enabled(s, RecordEnd(p))
              && Apply(s, RecordEnd(p)) ==
                   s.(calls := s.calls - {p}, records := s.records + [Record(x, true)],
                      replies := s.replies + [Delivered(x)])
  {
    hide StorageKey, Accepted, GateOpen;
  }

  lemma InputRuns(s: System, p: nat, x: Ask)
    requires p in s.calls && s.calls[p] == InputCall(x, Starting, s.now, true, Inserted)
    ensures Leads(s, [StartCommand(p)] + ([RecordStart(p)] + ([RecordEnd(p)] + [])),
                  s.(calls := s.calls - {p}, starts := s.starts + [x],
                     records := s.records + [Record(x, false)] + [Record(x, true)],
                     replies := s.replies + [Delivered(x)]))
  {
    hide StorageKey, Leads, Apply, Enabled;
    RunSteps(s, p, x);
    var s1 := Apply(s, StartCommand(p));
    RunSteps(s1, p, x);
    var s2 := Apply(s1, RecordStart(p));
    RunSteps(s2, p, x);
    var s3 := Apply(s2, RecordEnd(p));
    assert s3.calls == s.calls - {p};
    LeadsNowhere(s3);
    LeadsOne(s2, RecordEnd(p), [], s3);
    LeadsOne(s1, RecordStart(p), [RecordEnd(p)] + [], s3);
    LeadsOne(s, StartCommand(p), [RecordStart(p)] + ([RecordEnd(p)] + []), s3);
  }

  lemma LeadsNowhere(s: System)
    ensures Leads(s, [], s)
  {
  }

  lemma InputPasses(s: System, p: nat, x: Ask)
    requires p !in s.calls && Accepted(x.id)
    ensures Enabled(s, BeginInput(p, x))
    ensures var s1 := Apply(s, BeginInput(p, x));
            s1.table == s.table && s1.starts == s.starts
            && (Enabled(s1, PassGate(p)) <==>
                  x.workflow != "" && x.workflow in s.workflows && s.workflows[x.workflow] == Generic)
            && (Enabled(s1, PassGate(p)) ==>
                  Apply(s1, PassGate(p)) == s.(calls := s.calls[p := InputCall(x, Claiming, 0, false, NoClaim)]))
  {
    hide StorageKey, Accepted;
    var s1 := Apply(s, BeginInput(p, x));
    assert s.calls[p := InputCall(x, Gate, 0, false, NoClaim)][p := InputCall(x, Claiming, 0, false, NoClaim)]
           == s.calls[p := InputCall(x, Claiming, 0, false, NoClaim)];
  }

  /** An accepted input can pass the gate exactly when its workflow is known and generic; if its key is unused, and
      nobody interferes, it then starts once, is recorded twice and answered as delivered, and leaves a row that it
      won. At a closed gate it has left nothing at all. */
  lemma UndisturbedInput(s: System, p: nat, x: Ask)
    requires p !in s.calls && Accepted(x.id) && x.workflow != ""
    ensures Enabled(s, BeginInput(p, x))
    ensures var s1 := Apply(s, BeginInput(p, x));
            Enabled(s1, PassGate(p)) <==> x.workflow in s.workflows && s.workflows[x.workflow] == Generic
    ensures var s1 := Apply(s, BeginInput(p, x));
            s1 == s.(calls := s1.calls) && s1.calls - {p} == s.calls
    ensures x.workflow in s.workflows && s.workflows[x.workflow] == Generic && StorageKey(x) !in s.table ==>
              Leads(s, [BeginInput(p, x)] + ([PassGate(p)] + ([Move.Claim(p, true)] + ([Expire(p)] + ([ResolveRow(p)]
                       + ([StartCommand(p)] + ([RecordStart(p)] + ([RecordEnd(p)] + []))))))), AfterInput(s, x))
  {
    InputPasses(s, p, x);
    var s1 := Apply(s, BeginInput(p, x));
    assert s1 == s.(calls := s1.calls) && s1.calls - {p} == s.calls by { hide Accepted, StorageKey; }
    if x.workflow in s.workflows && s.workflows[x.workflow] == Generic && StorageKey(x) !in s.table {
      hide Apply, Enabled, Leads, Accepted, StorageKey;
      var s2 := Apply(s1, PassGate(p));
      InputWins(s2, p, x);
      var s3 := Apply(s2, Move.Claim(p, true));
      var s4 := Apply(s3, Expire(p));
      var s5 := Apply(s4, ResolveRow(p));
      InputRuns(s5, p, x);
      assert s5.calls - {p} == s.calls;
      var end := [StartCommand(p)] + ([RecordStart(p)] + ([RecordEnd(p)] + []));
      var t := AfterInput(s, x);
      LeadsOne(s4, ResolveRow(p), end, t);
      LeadsOne(s3, Expire(p), [ResolveRow(p)] + end, t);
      LeadsOne(s2, Move.Claim(p, true), [Expire(p)] + ([ResolveRow(p)] + end), t);
      LeadsOne(s1, PassGate(p), [Move.Claim(p, true)] + ([Expire(p)] + ([ResolveRow(p)] + end)), t);
      LeadsOne(s, BeginInput(p, x), [PassGate(p)] + ([Move.Claim(p, true)] + ([Expire(p)] + ([ResolveRow(p)] + end))),
               t);
    }
  }

  // --- deadlines --------------------------------------------------------------------------------

  ghost predicate StampInTime(s: System, key: string) {
    key in s.table && s.wins != [] && InTime(s.table[key].expiresAt, s.wins[|s.wins| - 1].at)
  }

  ghost predicate MomentInTime(s: System, key: string) {
    key in s.table && s.wins != [] && InTime(s.table[key].expiresAt, s.wins[|s.wins| - 1].when)
  }

  /** From its first UPDATE on: the row is there, and a call that read the clock did so before the deadline if the
      row is still to be won. */
  ghost predicate Timely(s: System, p: nat, key: string) {
    p in s.calls && s.calls[p].key == key && key in s.table
    && (s.calls[p].phase == Expiring || s.calls[p].phase == Explaining || Late(s.calls[p].phase)
        || (s.calls[p].phase == Resolving
            && (s.table[key].state == State.Pending ==> InTime(s.table[key].expiresAt, s.calls[p].at))))
  }

  lemma TimelyStep(s: System, m: Move, p: nat, key: string)
    requires Timely(s, p, key) && Enabled(s, m) && p in Apply(s, m).calls
    ensures Timely(Apply(s, m), p, key)
  {
    TableEvolves(s, m);
    if MoveOf(m, p) {
      hide ExpireAll, StorageKey, Accepted, Explain, LostBy, GateOpen, ResolveOne;
    } else {
      OthersStay(s, m, p);
      hide Apply, Enabled;
    }
  }

  lemma {:induction false} TimelyAlong(s: System, states: seq<System>, moves: seq<Move>, p: nat, key: string)
    requires Path(s, states, moves) && Timely(s, p, key) && Alive(states, p)
    ensures Timely(states[|moves|], p, key)
  {
    hide Timely, Enabled, Apply;
    if moves != [] {
      var n := |moves| - 1;
      TimelyAlong(s, states[..n + 1], moves[..n], p, key);
      assert p in states[n + 1].calls;
      TimelyStep(states[n], moves[n], p, key);
    }
  }

  lemma TimelyWin(s: System, p: nat, key: string)
    requires Timely(s, p, key) && Enabled(s, ResolveRow(p)) && |Apply(s, ResolveRow(p)).wins| > |s.wins|
    ensures StampInTime(Apply(s, ResolveRow(p)), key)
  {
  }

  lemma SeenRowInTime(s: System, states: seq<System>, moves: seq<Move>, p: nat)
    requires Path(s, states, moves) && Wins(states, moves, p)
    requires At(s, p, Expiring) && s.calls[p].key in s.table
    ensures StampInTime(states[|moves|], s.calls[p].key)
  {
    hide Enabled, Apply, StampInTime;
    var n, key := |moves| - 1, s.calls[p].key;
    assert Timely(s, p, key);
    hide Timely;
    TimelyAlong(s, states[..n + 1], moves[..n], p, key);
    TimelyWin(states[n], p, key);
  }

  const SOME_WORKFLOW := "w"

  function WithWorkflow(s: System): System {
    if SOME_WORKFLOW in s.workflows then s else s.(workflows := s.workflows[SOME_WORKFLOW := Claude])
  }

  lemma AddWorkflow(s: System, states: seq<System>, moves: seq<Move>, p: nat)
      returns (states': seq<System>, moves': seq<Move>)
    requires Path(s, states, moves) && |states| == |moves| + 1 && Alive(states, p)
    ensures Path(s, states', moves') && |states'| == |moves'| + 1 && Alive(states', p)
    ensures states'[|moves'|] == WithWorkflow(states[|moves|])
  {
    states', moves' := states, moves;
    if SOME_WORKFLOW !in states[|moves|].workflows {
      assert p in states[|moves|].calls;
      hide Path, Alive;
      states', moves' := Extend(s, states, moves, p, NewWorkflow(SOME_WORKFLOW, Claude));
    }
  }

  /** A row that appears with a deadline already reached (its ttl is zero) and is won all the same. */
  lemma LateRowIsWon(s: System, p: nat, key: string)
    requires At(s, p, Resolving) && s.calls[p].key == key && key !in s.table && SOME_WORKFLOW in s.workflows
    ensures Enabled(s, AskApproval(key, SOME_WORKFLOW, s.now, s.now))
    ensures var s1 := Apply(s, AskApproval(key, SOME_WORKFLOW, s.now, s.now));
            Enabled(s1, ResolveRow(p)) && p in s1.calls
            && var s2 := Apply(s1, ResolveRow(p));
               |s2.wins| > |s1.wins| && !MomentInTime(s2, key) && (s.calls[p].at >= s.now ==> !StampInTime(s2, key))
  {
  }

  /** From any state with a call whose row is missing at its second UPDATE, that call can win late. */
  lemma AbsentRowWinsLate(s: System, states: seq<System>, moves: seq<Move>, p: nat, key: string)
      returns (states': seq<System>, moves': seq<Move>)
    requires Path(s, states, moves) && |states| == |moves| + 1 && Alive(states, p)
    requires var t := states[|moves|]; At(t, p, Resolving) && t.calls[p].key == key && key !in t.table
    ensures Path(s, states', moves') && |states'| == |moves'| + 1 && Wins(states', moves', p)
    ensures !MomentInTime(states'[|moves'|], key)
    ensures states[|moves|].calls[p].at >= states[|moves|].now ==> !StampInTime(states'[|moves'|], key)
  {
    states', moves' := AddWorkflow(s, states, moves, p);
    var t := states'[|moves'|];
    LateRowIsWon(t, p, key);
    hide Path, Alive, EndsWith, Apply, Enabled, MomentInTime, StampInTime, At;
    states', moves' := Extend(s, states', moves', p, AskApproval(key, SOME_WORKFLOW, t.now, t.now));
    states', moves' := Extend(s, states', moves', p, ResolveRow(p));
  }

  lemma ExpireMisses(s: System, p: nat)
    requires At(s, p, Expiring) && s.calls[p].key !in s.table
    ensures Enabled(s, Expire(p))
    ensures var s1 := Apply(s, Expire(p));
            At(s1, p, Resolving) && s1.calls[p].key == s.calls[p].key && s1.calls[p].at == s1.now && s1.table == s.table
  {
  }

  /** The stamp a call would leave is before the deadline, however the system goes on, exactly when its row is there at
      its first UPDATE. */
  lemma StampInTimeIff(s: System, p: nat)
    requires At(s, p, Expiring)
    ensures s.calls[p].key in s.table <==>
              forall states: seq<System>, moves: seq<Move> :: Path(s, states, moves) && Wins(states, moves, p)
                ==> StampInTime(states[|moves|], s.calls[p].key)
  {
    hide StampInTime, MomentInTime, Apply, Enabled;
    var key := s.calls[p].key;
    if key in s.table {
      forall states: seq<System>, moves: seq<Move> | Path(s, states, moves) && Wins(states, moves, p)
        ensures StampInTime(states[|moves|], key)
      {
        SeenRowInTime(s, states, moves, p);
      }
    } else {
      hide Path, Wins, Alive;
      ExpireMisses(s, p);
      var states, moves := Start(s, p);
      states, moves := Extend(s, states, moves, p, Expire(p));
      states, moves := AbsentRowWinsLate(s, states, moves, p, key);
    }
  }

  /** A row that a call past its first UPDATE cannot win late. */
  predicate Unpressed(t: Table, key: string) {
    key in t && (t[key].state != State.Pending || t[key].expiresAt == None)
  }

  lemma UnpressedEvolves(t: Table, t': Table, key: string)
    requires Unpressed(t, key) && Evolves(t, t')
    ensures Unpressed(t', key)
  {
  }

  lemma {:induction false} UnpressedAlong(s: System, states: seq<System>, moves: seq<Move>, p: nat, key: string)
    requires Path(s, states, moves) && Unpressed(s.table, key) && Alive(states, p) && s.calls[p].key == key
    ensures Unpressed(states[|moves|].table, key) && states[|moves|].calls[p].key == key
  {
    hide Unpressed, Enabled, Apply, Evolves;
    if moves != [] {
      var n := |moves| - 1;
      UnpressedAlong(s, states[..n + 1], moves[..n], p, key);
      assert p in states[n].calls && p in states[n + 1].calls;
      TableEvolves(states[n], moves[n]);
      UnpressedEvolves(states[n].table, states[n + 1].table, key);
      KeyStays(states[n], moves[n], p);
    }
  }

  lemma KeyStays(s: System, m: Move, p: nat)
    requires Enabled(s, m) && p in s.calls && p in Apply(s, m).calls
    ensures Apply(s, m).calls[p].key == s.calls[p].key
  {
    if !MoveOf(m, p) {
      OthersStay(s, m, p);
      hide Apply, Enabled;
    }
  }

  lemma UnpressedWin(s: System, p: nat, key: string)
    requires Unpressed(s.table, key) && p in s.calls && s.calls[p].key == key
    requires Enabled(s, ResolveRow(p)) && |Apply(s, ResolveRow(p)).wins| > |s.wins|
    ensures MomentInTime(Apply(s, ResolveRow(p)), key)
  {
  }

  lemma PressedWin(s: System, p: nat, key: string)
    requires At(s, p, Resolving) && s.calls[p].key == key && key in s.table && !Unpressed(s.table, key)
    ensures var d := s.table[key].expiresAt.value;
            var m := Tick(if s.now < d then d else s.now);
            Enabled(s, m)
            && var s1 := Apply(s, m);
               Enabled(s1, ResolveRow(p)) && p in s1.calls
               && var s2 := Apply(s1, ResolveRow(p)); |s2.wins| > |s1.wins| && !MomentInTime(s2, key)
  {
  }

  /** The moment of resolving is another matter: the second UPDATE does not look at the deadline, so a call about to run
      it wins in time, however the system goes on, exactly when the row is there and settled or has no deadline. */
  lemma MomentInTimeIff(s: System, p: nat)
    requires At(s, p, Resolving)
    ensures Unpressed(s.table, s.calls[p].key) <==>
              forall states: seq<System>, moves: seq<Move> :: Path(s, states, moves) && Wins(states, moves, p)
                ==> MomentInTime(states[|moves|], s.calls[p].key)
  {
    var key := s.calls[p].key;
    if Unpressed(s.table, key) {
      hide MomentInTime, Apply, Enabled, Unpressed;
      forall states: seq<System>, moves: seq<Move> | Path(s, states, moves) && Wins(states, moves, p)
        ensures MomentInTime(states[|moves|], key)
      {
        var n := |moves| - 1;
        UnpressedAlong(s, states[..n + 1], moves[..n], p, key);
        UnpressedWin(states[n], p, key);
      }
    } else if key !in s.table {
      hide MomentInTime, StampInTime, Apply, Enabled, Unpressed, Path, Alive, Wins;
      var states, moves := Start(s, p);
      states, moves := AbsentRowWinsLate(s, states, moves, p, key);
    } else {
      PressedWin(s, p, key);
      var d := s.table[key].expiresAt.value;
      hide MomentInTime, Apply, Enabled, Unpressed, Path, Alive, EndsWith;
      var states, moves := Start(s, p);
      states, moves := Extend(s, states, moves, p, Tick(if s.now < d then d else s.now));
      states, moves := Extend(s, states, moves, p, ResolveRow(p));
    }
  }

  // --- runs that win late -----------------------------------------------------------------------

  function VerdictCall(at: int, saw: bool): Call {
    Call(Verdict, "w:r", "approved", Resolving, at, saw, NoClaim, false)
  }

  /** A verdict that ran its first UPDATE at time `at`, before the row existed. */
  lemma EarlyReader(at: nat) returns (states: seq<System>, moves: seq<Move>)
    ensures Run(states, moves) && |states| == |moves| + 1
    ensures states[|moves|] ==
              START.(now := at, workflows := map[SOME_WORKFLOW := Claude], calls := map[0 := VerdictCall(at, false)])
  {
    states, moves := [START], [];
    states, moves := OneMore(states, moves, NewWorkflow(SOME_WORKFLOW, Claude));
    states, moves := OneMore(states, moves, Tick(at));
    states, moves := OneMore(states, moves, BeginVerdict(0, "w:r", "approved"));
    states, moves := OneMore(states, moves, Expire(0));
    assert states[|moves|].calls == map[0 := VerdictCall(at, false)];
  }

  /** The one win is of a row with this deadline, by a call that did or did not see it; its stamp and its moment. */
  ghost predicate WonRow(s: System, deadline: int, saw: bool, at: int, when: int) {
    |s.wins| == 1 && s.wins[0].key in s.table && s.table[s.wins[0].key].expiresAt == Some(deadline)
    && s.wins[0].saw == saw && s.wins[0].at == at && s.wins[0].when == when
  }

  /** Any deadline can be met by a stamp that is not before it: a request with a ttl of zero appears between a verdict's
      two UPDATEs. */
  lemma LateWinPossible(deadline: nat)
    ensures exists states: seq<System>, moves: seq<Move> ::
              Run(states, moves) && WonRow(states[|moves|], deadline, false, deadline, deadline)
  {
    var states, moves := EarlyReader(deadline);
    hide Run;
    states, moves := OneMore(states, moves, AskApproval("w:r", SOME_WORKFLOW, deadline, deadline));
    states, moves := OneMore(states, moves, ResolveRow(0));
    assert WonRow(states[|moves|], deadline, false, deadline, deadline);
  }

  /** A verdict that ran its first UPDATE at time 0 on a pending row. */
  lemma SeeingReader(deadline: nat) returns (states: seq<System>, moves: seq<Move>)
    requires deadline > 0
    ensures Run(states, moves) && |states| == |moves| + 1
    ensures states[|moves|] ==
              START.(workflows := map[SOME_WORKFLOW := Claude], calls := map[0 := VerdictCall(0, true)],
                     table := map["w:r" := Fresh(SOME_WORKFLOW, Approval, 0, Some(deadline))])
  {
    states, moves := [START], [];
    states, moves := OneMore(states, moves, NewWorkflow(SOME_WORKFLOW, Claude));
    states, moves := OneMore(states, moves, AskApproval("w:r", SOME_WORKFLOW, 0, deadline));
    states, moves := OneMore(states, moves, BeginVerdict(0, "w:r", "approved"));
    states, moves := OneMore(states, moves, Expire(0));
    assert states[|moves|].calls == map[0 := VerdictCall(0, true)];
    assert states[|moves|].table == map["w:r" := Fresh(SOME_WORKFLOW, Approval, 0, Some(deadline))];
  }

  /** A call that saw its row can change it as long after the deadline as it likes, under a stamp before it. */
  lemma LateMomentPossible(deadline: nat, when: nat)
    requires 0 < deadline <= when
    ensures exists states: seq<System>, moves: seq<Move> ::
              Run(states, moves) && WonRow(states[|moves|], deadline, true, 0, when)
  {
    var states, moves := SeeingReader(deadline);
    hide Run;
    states, moves := OneMore(states, moves, Tick(when));
    states, moves := OneMore(states, moves, ResolveRow(0));
    assert WonRow(states[|moves|], deadline, true, 0, when);
  }
}

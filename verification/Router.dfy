/** The input router as an object: one delivery attempt over the store, and its in-memory counters. */
module Router {
  import opened Prelude
  import Requests
  import SingleResolve
  import opened Storage

  datatype Outcome = Delivered | Duplicate

  function Count(counts: map<string, nat>, workflow: string): nat {
    if workflow in counts then counts[workflow] else 0
  }

  function Bumped(counts: map<string, nat>, workflow: string): map<string, nat> {
    counts[workflow := Count(counts, workflow) + 1]
  }

  /** One more for this workflow, starting from nothing, and the others as they were. */
  predicate CountsOne(before: map<string, nat>, after: map<string, nat>, workflow: string) {
    after.Keys == before.Keys + {workflow}
    && after[workflow] == (if workflow in before then before[workflow] + 1 else 1)
    && forall w :: w in before && w != workflow ==> after[w] == before[w]
  }

  lemma BumpCounts(counts: map<string, nat>, workflow: string)
    ensures CountsOne(counts, Bumped(counts, workflow), workflow)
  {
  }

  /** One attempt with non-empty ids, on the rows: claim, then resolve. */
  function Attempt(t: Requests.Table, known: bool, key: string, workflow: string, now: int)
      : (Requests.Table, Result<Outcome>)
  {
    if key !in t && !known then (t, Err(NotFound))
    else
      var claimed := if key in t then t else t[key := Requests.Fresh(workflow, Requests.Input, now, None)];
      (Requests.Resolve(claimed, key, now, ""),
       Ok(if Requests.ResolveAnswer(claimed, key, now) == Requests.Applied then Delivered else Duplicate))
  }

  /** The first attempt for an input that finds no settled row wins and settles it; every later one is a duplicate; an
      unknown workflow without a row is neither; no other row is touched. */
  lemma AttemptMeans(t: Requests.Table, known: bool, key: string, workflow: string, now: int)
    ensures var (t', r) := Attempt(t, known, key, workflow, now);
            (r == Ok(Delivered) <==> Requests.Winnable(t, key, now) || (key !in t && known))
            && (r == Ok(Duplicate) <==> key in t && !Requests.Winnable(t, key, now))
            && (r.Err? ==> t' == t)
            && (r.Ok? ==> key in t' && t'[key].state != Requests.Pending && !Requests.Winnable(t', key, now))
            && (r == Ok(Delivered) ==>
                  t'[key].state == Requests.Resolved && t'[key].resolvedAt == Some(now) && t'[key].payload == Some(""))
            && (key !in t && known ==>
                  t'[key].workflow == workflow && t'[key].kind == Requests.Input && t'[key].createdAt == now
                  && t'[key].expiresAt == None)
            && Requests.Evolves(t, t')
            && (forall k :: k in t' && k != key ==> k in t && t'[k] == t[k])
  {
    var claimed := if key in t then t else t[key := Requests.Fresh(workflow, Requests.Input, now, None)];
    Requests.InsertEvolves(t, key, Requests.Fresh(workflow, Requests.Input, now, None));
    Requests.ResolveMeans(claimed, key, now, "");
    Requests.ResolveEvolves(claimed, key, now, "");
    Requests.EvolvesTransitive(t, claimed, Requests.Resolve(claimed, key, now, ""));
    hide Requests.Evolves, Requests.Resolve, Requests.ResolveAnswer;
  }

  function ClaimedTable(t: Requests.Table, c: SingleResolve.Call, now: int): Requests.Table
    requires c.origin.Routed?
  {
    if c.key in t then t else t[c.key := Requests.Fresh(c.origin.input.workflow, Requests.Input, now, None)]
  }

  /** The claim of a call and its first UPDATE, with nothing in between. */
  function ClaimThenExpire(s: SingleResolve.System, p: nat): SingleResolve.System
    requires SingleResolve.At(s, p, SingleResolve.Claiming) && s.calls[p].origin.Routed?
  {
    var claimed := SingleResolve.Apply(s, SingleResolve.Move.Claim(p, true));
    SingleResolve.Apply(claimed, SingleResolve.Move.Expire(p))
  }

  lemma ClaimThenExpireIs(s: SingleResolve.System, p: nat)
    requires SingleResolve.At(s, p, SingleResolve.Claiming) && s.calls[p].origin.Routed?
    ensures var c, s' := s.calls[p], ClaimThenExpire(s, p);
            s'.table == Requests.ExpireOne(ClaimedTable(s.table, c, s.now), c.key, s.now)
            && SingleResolve.At(s', p, SingleResolve.Resolving)
            && s'.calls[p].key == c.key && s'.calls[p].payload == c.payload && s'.calls[p].at == s.now
            && s'.calls[p].origin == c.origin
  {
    hide Requests.ExpireOne;
  }

  /** A delivery nobody interrupts is what the concurrent system does in one call's claim and two UPDATEs. */
  lemma AttemptIsThreeMoves(s: SingleResolve.System, p: nat)
    requires SingleResolve.At(s, p, SingleResolve.Claiming) && s.calls[p].origin.Routed? && s.calls[p].payload == ""
    ensures var c, s' := s.calls[p], ClaimThenExpire(s, p);
            var (t, r) := Attempt(s.table, true, c.key, c.origin.input.workflow, s.now);
            SingleResolve.At(s', p, SingleResolve.Resolving)
            && var after := SingleResolve.AfterResolve(s', p);
               after.table == t
               && (r == Ok(Delivered) <==> SingleResolve.At(after, p, SingleResolve.Starting))
               && (r == Ok(Duplicate) <==> SingleResolve.At(after, p, SingleResolve.Explaining))
  {
    var c := s.calls[p];
    ClaimThenExpireIs(s, p);
    hide ClaimThenExpire, Requests.ExpireOne, Requests.ResolveOne;
    ClaimedAnswer(s.table, c.key, Requests.Fresh(c.origin.input.workflow, Requests.Input, s.now, None), s.now);
  }

  lemma ClaimedAnswer(t: Requests.Table, key: string, q: Requests.Request, now: int)
    requires q.state == Requests.Pending && q.expiresAt == None
    ensures var claimed := if key in t then t else t[key := q];
            Requests.WouldResolve(Requests.ExpireOne(claimed, key, now), key)
            <==> Requests.ResolveAnswer(claimed, key, now) == Requests.Applied
  {
  }

  class InputRouter {
    const storage: Storage
    var delivered: map<string, nat>
    var duplicates: map<string, nat>

    constructor (storage: Storage)
      ensures this.storage == storage && delivered == map[] && duplicates == map[]
    {
      this.storage := storage;
      delivered, duplicates := map[], map[];
    }

    method Deliver(workflow: string, inputId: string, now: int) returns (r: Result<Outcome>)
      requires storage.Valid()
      modifies this, storage`requests
      ensures storage.Valid()
      ensures (storage.requests, r) ==
                if workflow == "" || inputId == "" then (old(storage.requests), Err(InvalidState))
                else Attempt(old(storage.requests), workflow in storage.workflows,
                             SingleResolve.StorageKey(SingleResolve.Ask(workflow, inputId)), workflow, now)
      ensures delivered == if r == Ok(Delivered) then Bumped(old(delivered), workflow) else old(delivered)
      ensures duplicates == if r == Ok(Duplicate) then Bumped(old(duplicates), workflow) else old(duplicates)
      ensures r == Ok(Delivered) ==> CountsOne(old(delivered), delivered, workflow) && duplicates == old(duplicates)
      ensures r == Ok(Duplicate) ==> CountsOne(old(duplicates), duplicates, workflow) && delivered == old(delivered)
    {
      BumpCounts(delivered, workflow);
      BumpCounts(duplicates, workflow);
      hide SingleResolve.StorageKey, Consistent, Bumped, CountsOne;
      if workflow == "" { return Err(InvalidState); }
      if inputId == "" { return Err(InvalidState); }
      var key := SingleResolve.StorageKey(SingleResolve.Ask(workflow, inputId));
      var first := storage.CreatePendingRequest(key, workflow, Requests.Input, None, now);
      Requests.ResolveMeans(storage.requests, key, now, "");
      hide Requests.Resolve, Requests.ResolveAnswer;
      var second := storage.ResolvePendingRequest(key, "", now);
      match (first, second) {
        case (Ok(_), Err(e)) => r := Err(e);
        case (Ok(_), Ok(_)) =>
          delivered := Bumped(delivered, workflow);
          r := Ok(Delivered);
        case (Err(_), Ok(_)) =>
          delivered := Bumped(delivered, workflow);
          r := Ok(Delivered);
        case (Err(e), Err(why)) =>
          if why == AlreadyResolved || why == Expired {
            duplicates := Bumped(duplicates, workflow);
            r := Ok(Duplicate);
          } else {
            r := Err(e);
          }
      }
    }

    /** Ending a workflow drops its counters and leaves its rows. */
    method ForgetWorkflow(workflow: string) returns (counts: (nat, nat))
      modifies this
      ensures counts.0 == if workflow in old(delivered) then old(delivered)[workflow] else 0
      ensures counts.1 == if workflow in old(duplicates) then old(duplicates)[workflow] else 0
      ensures delivered == old(delivered) - {workflow} && duplicates == old(duplicates) - {workflow}
    {
      counts := (Count(delivered, workflow), Count(duplicates, workflow));
      delivered, duplicates := delivered - {workflow}, duplicates - {workflow};
    }
  }
}

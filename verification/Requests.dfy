/** The pending_requests table: one INSERT, the statements of a resolve, and the sweep. */
module Requests {
  import opened Prelude

  datatype Kind = Input | Approval

  datatype State = Pending | Resolved | Expired

  datatype Request = Request(
    workflow: string, kind: Kind, createdAt: int, expiresAt: Option<int>,
    state: State, resolvedAt: Option<int>, payload: Option<string>)

  type Table = map<string, Request>

  /** How a resolve ends. */
  datatype Answer = Applied | AlreadyResolved | Overdue | Missing

  predicate Due(q: Request, now: int) {
    q.state == Pending && q.expiresAt.Some? && q.expiresAt.value <= now
  }

  function Fresh(workflow: string, kind: Kind, now: int, expiresAt: Option<int>): Request {
    Request(workflow, kind, now, expiresAt, Pending, None, None)
  }

  /** First UPDATE of a resolve: an overdue pending row expires. */
  function ExpireOne(t: Table, id: string, now: int): Table {
    if id in t && Due(t[id], now) then t[id := t[id].(state := Expired)] else t
  }

  /** Second UPDATE: a row still pending is resolved, whatever its deadline says. */
  function ResolveOne(t: Table, id: string, now: int, payload: string): Table {
    if id in t && t[id].state == Pending
    then t[id := t[id].(state := Resolved, resolvedAt := Some(now), payload := Some(payload))]
    else t
  }

  predicate WouldResolve(t: Table, id: string) { id in t && t[id].state == Pending }

  /** A resolve that nobody interrupts applies at time `now`. */
  predicate Winnable(t: Table, id: string, now: int) { WouldResolve(t, id) && !Due(t[id], now) }

  /** The closing SELECT of a resolve that updated nothing. */
  function Explain(t: Table, id: string): Answer {
    if id !in t then Missing else if t[id].state == Expired then Overdue else AlreadyResolved
  }

  /** A resolve that nobody interrupts. */
  function Resolve(t: Table, id: string, now: int, payload: string): Table {
    ResolveOne(ExpireOne(t, id, now), id, now, payload)
  }

  function ResolveAnswer(t: Table, id: string, now: int): Answer {
    var t' := ExpireOne(t, id, now);
    if WouldResolve(t', id) then Applied else Explain(t', id)
  }

  /** The sweep. */
  function ExpireAll(t: Table, now: int): Table {
    map id | id in t :: if Due(t[id], now) then t[id].(state := Expired) else t[id]
  }

  function DueIds(t: Table, now: int): set<string> { set id | id in t && Due(t[id], now) }

  /** What no statement ever does: drop a row, change what it was created with, touch a settled row,
      or settle one without going to Resolved with a stamp and a payload or to Expired with neither. */
  ghost predicate Evolves(t: Table, t': Table) {
    forall id :: id in t ==>
      id in t'
      && t'[id].workflow == t[id].workflow && t'[id].kind == t[id].kind
      && t'[id].createdAt == t[id].createdAt && t'[id].expiresAt == t[id].expiresAt
      && (t[id].state != Pending ==> t'[id] == t[id])
      && (t[id].state == Pending && t'[id].state != Resolved ==>
            t'[id].resolvedAt == t[id].resolvedAt && t'[id].payload == t[id].payload)
      && (t[id].state == Pending && t'[id].state == Resolved ==> t'[id].resolvedAt.Some? && t'[id].payload.Some?)
  }

  lemma EvolvesTransitive(a: Table, b: Table, c: Table)
    requires Evolves(a, b) && Evolves(b, c)
    ensures Evolves(a, c)
  {
    forall id | id in a ensures id in c && (a[id].state != Pending ==> c[id] == a[id]) {
      assert id in b;
    }
  }

  lemma InsertEvolves(t: Table, id: string, q: Request)
    ensures Evolves(t, t)
    ensures id !in t ==> Evolves(t, t[id := q])
  {
  }

  lemma ExpireOneEvolves(t: Table, id: string, now: int)
    ensures Evolves(t, ExpireOne(t, id, now))
  {
  }

  lemma ResolveOneEvolves(t: Table, id: string, now: int, payload: string)
    ensures Evolves(t, ResolveOne(t, id, now, payload))
  {
  }

  lemma ExpireAllEvolves(t: Table, now: int)
    ensures Evolves(t, ExpireAll(t, now))
  {
  }

  /** What a sweep does: the pending rows whose deadline has come are expired, and nothing else is touched. */
  lemma SweepMeans(t: Table, now: int)
    ensures ExpireAll(t, now).Keys == t.Keys
    ensures forall id :: id in t ==>
              var q, q' := t[id], ExpireAll(t, now)[id];
              if q.state == Pending && q.expiresAt.Some? && q.expiresAt.value <= now
              then q' == q.(state := Expired) && id in DueIds(t, now)
              else q' == q && id !in DueIds(t, now)
  {
  }

  lemma ResolveEvolves(t: Table, id: string, now: int, payload: string)
    ensures Evolves(t, Resolve(t, id, now, payload))
  {
    hide Evolves, ExpireOne, ResolveOne;
    ExpireOneEvolves(t, id, now);
    ResolveOneEvolves(ExpireOne(t, id, now), id, now, payload);
    EvolvesTransitive(t, ExpireOne(t, id, now), Resolve(t, id, now, payload));
  }

  /** What an uninterrupted resolve answers, and that only Applied writes the payload. */
  lemma ResolveMeans(t: Table, id: string, now: int, payload: string)
    ensures var t', a := Resolve(t, id, now, payload), ResolveAnswer(t, id, now);
            (a == Applied <==>
               id in t && t[id].state == Pending && (t[id].expiresAt.Some? ==> now < t[id].expiresAt.value))
            && (a == Applied ==>
                  t'[id].state == Resolved && t'[id].payload == Some(payload) && t'[id].resolvedAt == Some(now))
            && (a == Overdue <==> id in t && t'[id].state == Expired)
            && (a == Missing <==> id !in t)
            && (a == AlreadyResolved <==> id in t && t[id].state == Resolved)
            && (a != Applied ==> t' == ExpireOne(t, id, now))
            && (forall other :: other != id && other in t ==> other in t' && t'[other] == t[other])
            && t'.Keys == t.Keys
  {
  }
}

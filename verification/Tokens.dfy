/** Opaque access and refresh tokens with a time to live, the per-device indexes that let one call revoke them all,
    and the single-use refresh exchange. Times are milliseconds. */
module Tokens {
  import opened Prelude

  const HOUR := 3_600_000

  datatype Token = Token(device: string, user: string, expiresAt: int)

  /** A device's set of tokens; a set that nobody gave an expiry stays. */
  datatype Index = Index(members: set<string>, expiresAt: Option<int>)

  /** The keys of one token kind. Keys past their expiry are still here but read as absent. */
  datatype Shelf = Shelf(tokens: map<string, Token>, index: map<string, Index>)

  const EMPTY := Shelf(map[], map[])

  predicate Live(s: Shelf, tok: string, now: int) { tok in s.tokens && now < s.tokens[tok].expiresAt }

  predicate IndexLive(s: Shelf, device: string, now: int) {
    device in s.index && (s.index[device].expiresAt.Some? ==> now < s.index[device].expiresAt.value)
  }

  function Members(s: Shelf, device: string, now: int): set<string> {
    if IndexLive(s, device, now) then s.index[device].members else {}
  }

  /** Expiry of the index that an added member joins. */
  function Inherited(s: Shelf, device: string, now: int): Option<int> {
    if IndexLive(s, device, now) then s.index[device].expiresAt else None
  }

  predicate Issuable(device: string, user: string, ttl: int) { device != "" && user != "" && ttl > 0 }

  /** HSET, EXPIRE, SADD, and the EXPIRE of the index, whose failure nobody checks. */
  function Issue(s: Shelf, device: string, user: string, ttl: int, tok: string, now: int, indexWorks: bool): Shelf {
    Shelf(
      s.tokens[tok := Token(device, user, now + ttl)],
      s.index[device := Index(Members(s, device, now) + {tok},
                              if indexWorks then Some(now + ttl + HOUR) else Inherited(s, device, now))])
  }

  /** The Lua script: only a matching device deletes. Removing the last member removes the set. */
  function Consume(s: Shelf, device: string, tok: string, now: int): (Shelf, Option<string>) {
    if !Live(s, tok, now) || s.tokens[tok].device != device then (s, None)
    else
      var left := Members(s, device, now) - {tok};
      (Shelf(s.tokens - {tok},
             if left == {} then s.index - {device} else s.index[device := Index(left, Inherited(s, device, now))]),
       Some(s.tokens[tok].user))
  }

  function Revoke(s: Shelf, device: string, now: int): Shelf {
    Shelf(s.tokens - Members(s, device, now), s.index - {device})
  }

  // --- coverage ---------------------------------------------------------------------------------

  /** Every token that still works is in its device's index, which lives at least as long. */
  ghost predicate Covers(s: Shelf, now: int) {
    forall t :: Live(s, t, now) ==>
      var d := s.tokens[t].device;
      d in s.index && t in s.index[d].members
      && (s.index[d].expiresAt.Some? ==> s.tokens[t].expiresAt <= s.index[d].expiresAt.value)
  }

  /** The new index expiry reaches past everything it must cover. */
  ghost predicate Reaches(s: Shelf, device: string, ttl: int, now: int, indexWorks: bool) {
    if indexWorks
    then forall t :: Live(s, t, now) && s.tokens[t].device == device ==> s.tokens[t].expiresAt <= now + ttl + HOUR
    else Inherited(s, device, now).Some? ==> now + ttl <= Inherited(s, device, now).value
  }

  lemma IssueCovers(s: Shelf, device: string, user: string, ttl: int, tok: string, now: int, indexWorks: bool)
    requires Covers(s, now) && tok !in s.tokens && Issuable(device, user, ttl)
             && Reaches(s, device, ttl, now, indexWorks)
    ensures Covers(Issue(s, device, user, ttl, tok, now, indexWorks), now)
  {
    var s' := Issue(s, device, user, ttl, tok, now, indexWorks);
    assert forall t :: t != tok && Live(s', t, now) ==> Live(s, t, now) && s'.tokens[t] == s.tokens[t];
  }

  lemma CoversReaches(s: Shelf, device: string, user: string, ttl: int, tok: string, now: int, indexWorks: bool)
    requires tok !in s.tokens && Issuable(device, user, ttl)
    requires Covers(Issue(s, device, user, ttl, tok, now, indexWorks), now)
    ensures Reaches(s, device, ttl, now, indexWorks)
  {
    var s' := Issue(s, device, user, ttl, tok, now, indexWorks);
    assert Live(s', tok, now);
    forall t | Live(s, t, now) && s.tokens[t].device == device
      ensures indexWorks ==> s.tokens[t].expiresAt <= now + ttl + HOUR {
      assert Live(s', t, now);
    }
  }

  /** An issue keeps every live token covered exactly when its ttl plus the hour of grace outlasts the device's older
      live tokens, or, if the index could not be given its expiry, when the old expiry is late enough. */
  lemma IssueCoversIff(s: Shelf, device: string, user: string, ttl: int, tok: string, now: int, indexWorks: bool)
    requires Covers(s, now) && tok !in s.tokens && Issuable(device, user, ttl)
    ensures Covers(Issue(s, device, user, ttl, tok, now, indexWorks), now) <==> Reaches(s, device, ttl, now, indexWorks)
  {
    hide Covers, Reaches, Issue;
    if Reaches(s, device, ttl, now, indexWorks) { IssueCovers(s, device, user, ttl, tok, now, indexWorks); }
    if Covers(Issue(s, device, user, ttl, tok, now, indexWorks), now) {
      CoversReaches(s, device, user, ttl, tok, now, indexWorks);
    }
  }

  lemma TimeKeepsCover(s: Shelf, now: int, later: int)
    requires Covers(s, now) && now <= later
    ensures Covers(s, later)
  {
    assert forall t :: Live(s, t, later) ==> Live(s, t, now);
  }

  lemma ConsumeKeepsCover(s: Shelf, device: string, tok: string, now: int)
    requires Covers(s, now)
    ensures Covers(Consume(s, device, tok, now).0, now)
  {
    var s' := Consume(s, device, tok, now).0;
    assert forall t :: Live(s', t, now) ==> Live(s, t, now) && s'.tokens[t] == s.tokens[t];
  }

  /** Revoking leaves no token of the device usable, now or later, and no other device's token any worse off. */
  lemma RevokeIsComplete(s: Shelf, device: string, now: int, later: int)
    requires Covers(s, now) && now <= later
    ensures var s' := Revoke(s, device, now);
            (forall t :: Live(s', t, later) ==> s'.tokens[t].device != device)
  {
    var s' := Revoke(s, device, now);
    forall t | Live(s', t, later) ensures s'.tokens[t].device != device {
      assert Live(s, t, now);
    }
  }

  /** A revoke at this moment leaves the device a token that works. */
  predicate Missed(s: Shelf, device: string, now: int, t: string) {
    Live(Revoke(s, device, now), t, now) && Revoke(s, device, now).tokens[t].device == device
  }

  /** A token that no revoke misses, now or when its index ends, is covered. */
  lemma MissedUnlessCovered(s: Shelf, now: int, t: string)
    requires Live(s, t, now)
    requires forall later :: now <= later ==> !Missed(s, s.tokens[t].device, later, t)
    ensures var d := s.tokens[t].device;
            d in s.index && t in s.index[d].members
            && (s.index[d].expiresAt.Some? ==> s.tokens[t].expiresAt <= s.index[d].expiresAt.value)
  {
    var d := s.tokens[t].device;
    assert !Missed(s, d, now, t);
    if s.index[d].expiresAt.Some? {
      assert !Missed(s, d, s.index[d].expiresAt.value, t);
    }
  }

  /** Coverage is exactly what it takes: no revoke of any device, now or later, misses a token if and only if every
      token that still works is covered. */
  lemma RevokeIsCompleteIff(s: Shelf, now: int)
    ensures Covers(s, now)
            <==> forall later: int, device: string, t: string :: now <= later ==> !Missed(s, device, later, t)
  {
    if Covers(s, now) {
      forall later: int, device: string, t: string | now <= later ensures !Missed(s, device, later, t) {
        TimeKeepsCover(s, now, later);
        hide Covers, Revoke;
        RevokeIsComplete(s, device, later, later);
      }
    }
    if forall later: int, device: string, t: string :: now <= later ==> !Missed(s, device, later, t) {
      hide Missed;
      forall t | Live(s, t, now)
        ensures var d := s.tokens[t].device;
                d in s.index && t in s.index[d].members
                && (s.index[d].expiresAt.Some? ==> s.tokens[t].expiresAt <= s.index[d].expiresAt.value)
      {
        MissedUnlessCovered(s, now, t);
      }
    }
  }

  /** Index members belong to the device. */
  ghost predicate Owned(s: Shelf) {
    forall d, t :: d in s.index && t in s.index[d].members && t in s.tokens ==> s.tokens[t].device == d
  }

  lemma RevokeKeepsCover(s: Shelf, device: string, now: int)
    requires Covers(s, now)
    ensures Covers(Revoke(s, device, now), now)
  {
    var s' := Revoke(s, device, now);
    assert s'.index == s.index - {device};
    forall t | Live(s', t, now)
      ensures s'.tokens[t] == s.tokens[t] && s.tokens[t].device != device && Live(s, t, now)
    {
      assert Live(s, t, now);
    }
    hide Revoke;
  }

  lemma RevokeTouchesNoOther(s: Shelf, device: string, now: int)
    requires Owned(s)
    ensures var s' := Revoke(s, device, now);
            Owned(s') && forall t :: t in s.tokens && s.tokens[t].device != device ==>
                          t in s'.tokens && s'.tokens[t] == s.tokens[t]
  {
  }

  /** Whose token this is, while it works. */
  function ResolveIn(s: Shelf, tok: string, now: int): Option<(string, string)> {
    if Live(s, tok, now) then Some((s.tokens[tok].device, s.tokens[tok].user)) else None
  }

  /** What an issue leaves: a token that works for exactly its time to live and names its device and user, in an index
      that holds it beside the members it had and ends an hour later; no other token is touched. */
  lemma IssueMeans(s: Shelf, device: string, user: string, ttl: int, tok: string, now: int, later: int)
    requires device != "" && user != "" && ttl > 0 && tok !in s.tokens
    ensures Issuable(device, user, ttl)
    ensures var s' := Issue(s, device, user, ttl, tok, now, true);
            ResolveIn(s', tok, later) == (if later < now + ttl then Some((device, user)) else None)
            && s'.tokens[tok].device == device && s'.tokens[tok].user == user
            && (forall t :: t in s.tokens ==> t in s'.tokens && s'.tokens[t] == s.tokens[t])
            && (forall t :: t in s'.tokens ==> t in s.tokens || t == tok)
            && device in s'.index && s'.index[device].expiresAt == Some(now + ttl + 3_600_000)
            && (forall t :: t in s'.index[device].members <==> t == tok || t in Members(s, device, now))
  {
  }

  /** A refresh token is exchanged exactly when it works and the device is its own; then the answer is its user, it is
      gone, and nothing else is. */
  lemma ConsumeMeans(s: Shelf, device: string, tok: string, now: int)
    ensures var (s', user) := Consume(s, device, tok, now);
            (user.Some? <==> tok in s.tokens && now < s.tokens[tok].expiresAt && s.tokens[tok].device == device)
            && (user.Some? ==>
                  user == Some(s.tokens[tok].user) && tok !in s'.tokens
                  && forall t :: t in s.tokens && t != tok ==> t in s'.tokens && s'.tokens[t] == s.tokens[t])
            && (user == None ==> s' == s)
  {
  }

  // --- the store --------------------------------------------------------------------------------

  class TokenStore {
    var access: Shelf
    var refresh: Shelf

    constructor ()
      ensures access == EMPTY && refresh == EMPTY
    {
      access, refresh := EMPTY, EMPTY;
    }

    /** `tok` stands for the 256 random bits: a value never issued before. */
    method IssueAccessToken(device: string, user: string, ttl: int, tok: string, now: int, indexWorks: bool)
        returns (r: Option<string>)
      modifies this`access
      ensures r == if device != "" && user != "" && ttl > 0 then Some(tok) else None
      ensures access == if r.Some? then Issue(old(access), device, user, ttl, tok, now, indexWorks) else old(access)
    {
      if !Issuable(device, user, ttl) { return None; }
      var inherited := Inherited(access, device, now);
      var members := Members(access, device, now) + {tok};
      access := access.(tokens := access.tokens[tok := Token(device, user, now + ttl)]);
      access := access.(index := access.index[device := Index(members, inherited)]);
      if indexWorks {
        access := access.(index := access.index[device := Index(members, Some(now + ttl + HOUR))]);
      }
      r := Some(tok);
    }

    function ResolveAccessToken(tok: string, now: int): Option<(string, string)>
      reads this
    {
      ResolveIn(access, tok, now)
    }

    method IssueRefreshToken(device: string, user: string, ttl: int, tok: string, now: int, indexWorks: bool)
        returns (r: Option<string>)
      modifies this`refresh
      ensures r == if device != "" && user != "" && ttl > 0 then Some(tok) else None
      ensures refresh == if r.Some? then Issue(old(refresh), device, user, ttl, tok, now, indexWorks) else old(refresh)
    {
      if !Issuable(device, user, ttl) { return None; }
      var inherited := Inherited(refresh, device, now);
      var members := Members(refresh, device, now) + {tok};
      refresh := refresh.(tokens := refresh.tokens[tok := Token(device, user, now + ttl)]);
      refresh := refresh.(index := refresh.index[device := Index(members, inherited)]);
      if indexWorks {
        refresh := refresh.(index := refresh.index[device := Index(members, Some(now + ttl + HOUR))]);
      }
      r := Some(tok);
    }

    method ConsumeRefreshToken(device: string, tok: string, now: int) returns (user: Option<string>)
      modifies this`refresh
      ensures if device == "" || tok == "" then user == None && refresh == old(refresh)
              else (refresh, user) == Consume(old(refresh), device, tok, now)
    {
      if device == "" || tok == "" { return None; }
      if !Live(refresh, tok, now) { return None; }
      var entry := refresh.tokens[tok];
      if entry.device != device { return None; }
      var left, expiry := Members(refresh, device, now) - {tok}, Inherited(refresh, device, now);
      refresh := refresh.(tokens := refresh.tokens - {tok});
      refresh := refresh.(index := if left == {} then refresh.index - {device}
                                   else refresh.index[device := Index(left, expiry)]);
      user := Some(entry.user);
    }

    method RevokeDeviceTokens(device: string, now: int)
      modifies this
      ensures access == Revoke(old(access), device, now) && refresh == Revoke(old(refresh), device, now)
    {
      var toks, rfr := Members(access, device, now), Members(refresh, device, now);
      access := access.(tokens := access.tokens - toks);
      refresh := refresh.(tokens := refresh.tokens - rfr);
      access := access.(index := access.index - {device});
      refresh := refresh.(index := refresh.index - {device});
    }
  }

  // --- every run --------------------------------------------------------------------------------

  datatype Kind = Access | Refresh

  datatype Op =
    | Issuing(kind: Kind, device: string, user: string, tok: string, now: int)
    | Consuming(device: string, tok: string, now: int)
    | Revoking(device: string, now: int)

  /** One fixed time to live per kind. */
  datatype Ttl = Ttl(access: int, refresh: int)

  datatype World = World(now: int, access: Shelf, refresh: Shelf, issued: set<string>, consumed: seq<string>)

  const BEGIN := World(0, EMPTY, EMPTY, {}, [])

  predicate Allowed(w: World, op: Op) {
    w.now <= op.now && (op.Issuing? ==> op.tok !in w.issued)
  }

  function Apply(ttl: Ttl, w: World, op: Op): World {
    match op
    case Issuing(kind, device, user, tok, now) =>
      if !Issuable(device, user, if kind == Access then ttl.access else ttl.refresh) then w.(now := now)
      else if kind == Access then
        w.(now := now, issued := w.issued + {tok}, access := Issue(w.access, device, user, ttl.access, tok, now, true))
      else
        w.(now := now, issued := w.issued + {tok},
           refresh := Issue(w.refresh, device, user, ttl.refresh, tok, now, true))
    case Consuming(device, tok, now) =>
      var (shelf, user) := Consume(w.refresh, device, tok, now);
      w.(now := now, refresh := shelf, consumed := if user.Some? then w.consumed + [tok] else w.consumed)
    case Revoking(device, now) =>
      w.(now := now, access := Revoke(w.access, device, now), refresh := Revoke(w.refresh, device, now))
  }

  ghost predicate Run(ttl: Ttl, worlds: seq<World>, ops: seq<Op>) {
    |worlds| == |ops| + 1 && worlds[0] == BEGIN
    && forall i :: 0 <= i < |ops| ==> Allowed(worlds[i], ops[i]) && worlds[i + 1] == Apply(ttl, worlds[i], ops[i])
  }

  ghost predicate ShelfOk(s: Shelf, ttl: int, now: int, issued: set<string>) {
    Covers(s, now) && Owned(s)
    && (forall t :: t in s.tokens ==> t in issued && s.tokens[t].expiresAt <= now + ttl)
    && (forall d, t :: d in s.index && t in s.index[d].members ==> t in issued)
  }

  ghost predicate Inv(ttl: Ttl, w: World) {
    ShelfOk(w.access, ttl.access, w.now, w.issued) && ShelfOk(w.refresh, ttl.refresh, w.now, w.issued)
    && (forall t :: t in w.consumed ==> t in w.issued && t !in w.refresh.tokens)
    && (forall i, j :: 0 <= i < j < |w.consumed| ==> w.consumed[i] != w.consumed[j])
  }

  lemma TimeKeepsShelf(s: Shelf, ttl: int, now: int, later: int, issued: set<string>, tok: string)
    requires ShelfOk(s, ttl, now, issued) && now <= later
    ensures ShelfOk(s, ttl, later, issued) && ShelfOk(s, ttl, later, issued + {tok})
  {
    hide Owned;
    TimeKeepsCover(s, now, later);
  }

  lemma IssueKeepsShelf(s: Shelf, device: string, user: string, ttl: int, tok: string, now: int, issued: set<string>)
    requires ShelfOk(s, ttl, now, issued) && tok !in issued && Issuable(device, user, ttl)
    ensures ShelfOk(Issue(s, device, user, ttl, tok, now, true), ttl, now, issued + {tok})
  {
    IssueCoversIff(s, device, user, ttl, tok, now, true);
    hide Covers;
  }

  lemma ConsumeKeepsShelf(s: Shelf, device: string, tok: string, ttl: int, now: int, issued: set<string>)
    requires ShelfOk(s, ttl, now, issued)
    ensures ShelfOk(Consume(s, device, tok, now).0, ttl, now, issued)
  {
    ConsumeKeepsCover(s, device, tok, now);
    hide Covers;
  }

  lemma RevokeKeepsShelf(s: Shelf, device: string, ttl: int, now: int, issued: set<string>)
    requires ShelfOk(s, ttl, now, issued)
    ensures ShelfOk(Revoke(s, device, now), ttl, now, issued)
  {
    RevokeKeepsCover(s, device, now);
    RevokeTouchesNoOther(s, device, now);
    hide Covers, Owned;
  }

  lemma IssueAdds(s: Shelf, device: string, user: string, ttl: int, tok: string, now: int)
    ensures forall t :: t in Issue(s, device, user, ttl, tok, now, true).tokens ==> t in s.tokens || t == tok
  {
  }

  lemma ConsumeRemoves(s: Shelf, device: string, tok: string, ttl: int, now: int, issued: set<string>)
    requires ShelfOk(s, ttl, now, issued)
    ensures var r := Consume(s, device, tok, now);
            (forall t :: t in r.0.tokens ==> t in s.tokens)
              && (r.1.Some? ==> tok in s.tokens && tok in issued && tok !in r.0.tokens)
  {
  }

  lemma RevokeRemoves(s: Shelf, device: string, now: int)
    ensures forall t :: t in Revoke(s, device, now).tokens ==> t in s.tokens
  {
  }

  lemma IssuingKeeps(ttl: Ttl, w: World, op: Op)
    requires Inv(ttl, w) && Allowed(w, op) && op.Issuing?
    ensures Inv(ttl, Apply(ttl, w, op))
  {
    hide ShelfOk, Issue;
    TimeKeepsShelf(w.access, ttl.access, w.now, op.now, w.issued, op.tok);
    TimeKeepsShelf(w.refresh, ttl.refresh, w.now, op.now, w.issued, op.tok);
    if Issuable(op.device, op.user, if op.kind == Access then ttl.access else ttl.refresh) {
      if op.kind == Access {
        IssueKeepsShelf(w.access, op.device, op.user, ttl.access, op.tok, op.now, w.issued);
      } else {
        IssueKeepsShelf(w.refresh, op.device, op.user, ttl.refresh, op.tok, op.now, w.issued);
        IssueAdds(w.refresh, op.device, op.user, ttl.refresh, op.tok, op.now);
      }
    }
  }

  lemma ConsumingKeeps(ttl: Ttl, w: World, op: Op)
    requires Inv(ttl, w) && Allowed(w, op) && op.Consuming?
    ensures Inv(ttl, Apply(ttl, w, op))
  {
    hide ShelfOk, Consume;
    TimeKeepsShelf(w.access, ttl.access, w.now, op.now, w.issued, "");
    TimeKeepsShelf(w.refresh, ttl.refresh, w.now, op.now, w.issued, "");
    ConsumeKeepsShelf(w.refresh, op.device, op.tok, ttl.refresh, op.now, w.issued);
    ConsumeRemoves(w.refresh, op.device, op.tok, ttl.refresh, op.now, w.issued);
  }

  lemma RevokingKeeps(ttl: Ttl, w: World, op: Op)
    requires Inv(ttl, w) && Allowed(w, op) && op.Revoking?
    ensures Inv(ttl, Apply(ttl, w, op))
  {
    hide ShelfOk, Revoke;
    TimeKeepsShelf(w.access, ttl.access, w.now, op.now, w.issued, "");
    TimeKeepsShelf(w.refresh, ttl.refresh, w.now, op.now, w.issued, "");
    RevokeKeepsShelf(w.access, op.device, ttl.access, op.now, w.issued);
    RevokeKeepsShelf(w.refresh, op.device, ttl.refresh, op.now, w.issued);
    RevokeRemoves(w.refresh, op.device, op.now);
  }

  lemma BeginInv(ttl: Ttl)
    ensures Inv(ttl, BEGIN)
  {
  }

  lemma {:induction false} RunKeeps(ttl: Ttl, worlds: seq<World>, ops: seq<Op>)
    requires Run(ttl, worlds, ops)
    ensures Inv(ttl, worlds[|ops|])
  {
    hide Inv, Apply, Allowed;
    if ops == [] {
      BeginInv(ttl);
    } else {
      var n := |ops| - 1;
      RunKeeps(ttl, worlds[..n + 1], ops[..n]);
      match ops[n]
      case Issuing(_, _, _, _, _) => IssuingKeeps(ttl, worlds[n], ops[n]);
      case Consuming(_, _, _) => ConsumingKeeps(ttl, worlds[n], ops[n]);
      case Revoking(_, _) => RevokingKeeps(ttl, worlds[n], ops[n]);
    }
  }

  /** With one ttl per kind, in every run each live token is in its device's index and the index outlives it, so that
      revoking now leaves no access or refresh token of the device usable at any later time. */
  lemma RevokeAlwaysComplete(ttl: Ttl, worlds: seq<World>, ops: seq<Op>, device: string, now: int, later: int)
    requires Run(ttl, worlds, ops) && worlds[|ops|].now <= now <= later
    ensures var w := worlds[|ops|];
            var w' := Apply(ttl, w, Revoking(device, now));
            Covers(w.access, w.now) && Covers(w.refresh, w.now)
            && (forall t :: Live(w'.access, t, later) ==> w'.access.tokens[t].device != device)
            && (forall t :: Live(w'.refresh, t, later) ==> w'.refresh.tokens[t].device != device)
  {
    hide Revoke, Covers, Allowed;
    assert Inv(ttl, worlds[|ops|]) by { hide Inv, Apply; RunKeeps(ttl, worlds, ops); }
    var w := worlds[|ops|];
    TimeKeepsCover(w.access, w.now, now);
    TimeKeepsCover(w.refresh, w.now, now);
    RevokeIsComplete(w.access, device, now, later);
    RevokeIsComplete(w.refresh, device, now, later);
  }

  /** Over every run a refresh token is consumed at most once; whoever asks with another device consumes nothing. */
  lemma ConsumedOnce(ttl: Ttl, worlds: seq<World>, ops: seq<Op>, device: string, tok: string, now: int)
    requires Run(ttl, worlds, ops) && worlds[|ops|].now <= now
    ensures var w := worlds[|ops|];
            (forall i, j :: 0 <= i < j < |w.consumed| ==> w.consumed[i] != w.consumed[j])
            && (tok in w.consumed ==> Consume(w.refresh, device, tok, now) == (w.refresh, None))
            && (tok in w.refresh.tokens && w.refresh.tokens[tok].device != device ==>
                  Consume(w.refresh, device, tok, now) == (w.refresh, None))
  {
    hide ShelfOk, Allowed;
    assert Inv(ttl, worlds[|ops|]) by { hide Inv, Apply; RunKeeps(ttl, worlds, ops); }
  }

  /** A short-lived token issued after a long-lived one can cut the index short: then revoking misses the old one. */
  lemma ShorterTtlMissesToken(now: int, long: int, short: int, later: int)
    requires short > 0 && long > short + HOUR && now + short + HOUR <= later < now + long
    ensures var s := Issue(Issue(EMPTY, "d", "u", long, "a", now, true), "d", "u", short, "b", now, true);
            !Covers(s, now) && Live(Revoke(s, "d", later), "a", later)
            && Revoke(s, "d", later).tokens["a"].device == "d"
  {
    var s := Issue(Issue(EMPTY, "d", "u", long, "a", now, true), "d", "u", short, "b", now, true);
    assert Live(s, "a", now);
  }
}

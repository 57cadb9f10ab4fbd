/** The separator-joined byte strings hashed by `ContextHash` and `grantBinding`. SHA-256 is left
    abstract: everything is said of the bytes fed to it. Go strings are byte sequences. */
module Preimage {
  import opened Utf8
  import opened Decimal

  datatype Context = Context(
    displayName: seq<Byte>, fingerprint: seq<Byte>, subjectDeviceId: seq<Byte>, sessionId: seq<Byte>,
    requestedAtMillis: int)

  function ContextBytes(c: Context): seq<Byte> {
    c.displayName + [0] + c.fingerprint + [0] + c.subjectDeviceId + [0] + c.sessionId + [0]
    + Bytes(IntText(c.requestedAtMillis))
  }

  datatype Grant = Grant(subjectKey: seq<Byte>, sessionId: seq<Byte>, granterDeviceId: seq<Byte>)

  function GrantBytes(g: Grant): seq<Byte> {
    g.subjectKey + [0] + g.sessionId + [0] + g.granterDeviceId
  }

  /** Where each field stands: display name, fingerprint, device, session and decimal time, with one NUL after each of
      the first four. */
  lemma ContextLayout(c: Context)
    ensures var s := ContextBytes(c);
            var a := |c.displayName|;
            var b := a + 1 + |c.fingerprint|;
            var d := b + 1 + |c.subjectDeviceId|;
            var e := d + 1 + |c.sessionId|;
            |s| == e + 1 + |IntText(c.requestedAtMillis)|
            && s[a] == 0 && s[b] == 0 && s[d] == 0 && s[e] == 0
            && s[..a] == c.displayName && s[a + 1..b] == c.fingerprint && s[b + 1..d] == c.subjectDeviceId
            && s[d + 1..e] == c.sessionId && s[e + 1..] == Bytes(IntText(c.requestedAtMillis))
  {
    AsciiBytes(IntText(c.requestedAtMillis));
  }

  /** The key, then the session, then the granter, with a NUL between. */
  lemma GrantLayout(g: Grant)
    ensures var s := GrantBytes(g);
            var a := |g.subjectKey|;
            var b := a + 1 + |g.sessionId|;
            |s| == b + 1 + |g.granterDeviceId| && s[a] == 0 && s[b] == 0
            && s[..a] == g.subjectKey && s[a + 1..b] == g.sessionId && s[b + 1..] == g.granterDeviceId
  {
  }

  /** The two parts of a joined text, by position. */
  lemma CutAt(x: seq<Byte>, y: seq<Byte>, s: seq<Byte>)
    requires s == x + [0] + y
    ensures |s| == |x| + 1 + |y| && s[|x|] == 0 && x == s[..|x|] && y == s[|x| + 1..]
  {
  }

  lemma AfterSeparator(x: seq<Byte>, y: seq<Byte>, s: seq<Byte>, i: nat)
    requires s == x + [0] + y && |x| < i < |s|
    ensures s[i] == y[i - |x| - 1] && s[i] in y
  {
  }

  /** The last zero of a joined text is its separator when nothing after it contains a NUL. */
  lemma LastZero(x: seq<Byte>, y: seq<Byte>, s: seq<Byte>, k: nat)
    requires s == x + [0] + y && 0 !in y
    requires k < |s| && s[k] == 0 && forall i :: k < i < |s| ==> s[i] != 0
    ensures k == |x|
  {
    CutAt(x, y, s);
    if |x| < k { AfterSeparator(x, y, s, k); }
  }

  /** The last separator is found from the right when nothing after it contains a NUL. */
  lemma SplitLast(x: seq<Byte>, y: seq<Byte>, x': seq<Byte>, y': seq<Byte>)
    requires x + [0] + y == x' + [0] + y'
    requires 0 !in y && 0 !in y'
    ensures x == x' && y == y'
  {
    var s := x + [0] + y;
    CutAt(x, y, s);
    CutAt(x', y', s);
    forall i | |x'| < i < |s| ensures s[i] != 0 {
      AfterSeparator(x', y', s, i);
    }
    LastZero(x, y, s, |x'|);
  }

  lemma {:induction false} IntTextHasNoNul(n: int)
    ensures 0 !in Bytes(IntText(n))
  {
    AsciiBytes(IntText(n));
  }

  predicate ShortFieldsClean(c: Context) {
    0 !in c.fingerprint && 0 !in c.subjectDeviceId && 0 !in c.sessionId
  }

  /** The hashed bytes determine all five fields when the three ids are NUL-free; the display name
      may contain anything. */
  lemma ContextDetermined(c: Context, d: Context)
    requires ShortFieldsClean(c) && ShortFieldsClean(d)
    requires ContextBytes(c) == ContextBytes(d)
    ensures c == d
  {
    IntTextHasNoNul(c.requestedAtMillis);
    IntTextHasNoNul(d.requestedAtMillis);
    var c1 := c.displayName + [0] + c.fingerprint;
    var d1 := d.displayName + [0] + d.fingerprint;
    var c2, d2 := c1 + [0] + c.subjectDeviceId, d1 + [0] + d.subjectDeviceId;
    SplitLast(c2 + [0] + c.sessionId, Bytes(IntText(c.requestedAtMillis)),
              d2 + [0] + d.sessionId, Bytes(IntText(d.requestedAtMillis)));
    SplitLast(c2, c.sessionId, d2, d.sessionId);
    SplitLast(c1, c.subjectDeviceId, d1, d.subjectDeviceId);
    SplitLast(c.displayName, c.fingerprint, d.displayName, d.fingerprint);
    BytesInjective(IntText(c.requestedAtMillis), IntText(d.requestedAtMillis));
    IntTextInjective(c.requestedAtMillis, d.requestedAtMillis);
  }

  function Nuls(s: seq<Byte>): nat { multiset(s)[0] }

  lemma NulsOfContext(c: Context)
    ensures Nuls(ContextBytes(c))
         == 4 + Nuls(c.displayName) + Nuls(c.fingerprint) + Nuls(c.subjectDeviceId) + Nuls(c.sessionId)
  {
    IntTextHasNoNul(c.requestedAtMillis);
    assert Nuls(Bytes(IntText(c.requestedAtMillis))) == 0;
  }

  predicate Clean(c: Context) { 0 !in c.displayName && ShortFieldsClean(c) }

  /** A second context with the same bytes, whenever one of the strings contains a NUL: the NUL is
      taken for a separator. */
  function Shifted(c: Context): (d: Context)
    requires !Clean(c)
  {
    if 0 in c.displayName then
      var k := FirstNul(c.displayName);
      c.(displayName := c.displayName[..k], fingerprint := c.displayName[k + 1..] + [0] + c.fingerprint)
    else if 0 in c.fingerprint then
      var k := FirstNul(c.fingerprint);
      c.(displayName := c.displayName + [0] + c.fingerprint[..k], fingerprint := c.fingerprint[k + 1..])
    else if 0 in c.subjectDeviceId then
      var k := FirstNul(c.subjectDeviceId);
      c.(fingerprint := c.fingerprint + [0] + c.subjectDeviceId[..k], subjectDeviceId := c.subjectDeviceId[k + 1..])
    else
      var k := FirstNul(c.sessionId);
      c.(subjectDeviceId := c.subjectDeviceId + [0] + c.sessionId[..k], sessionId := c.sessionId[k + 1..])
  }

  function FirstNul(s: seq<Byte>): (k: nat)
    requires 0 in s
    ensures k < |s| && s[k] == 0
  {
    if s[0] == 0 then 0 else 1 + FirstNul(s[1..])
  }

  lemma CutAtNul(s: seq<Byte>)
    requires 0 in s
    ensures s[..FirstNul(s)] + [0] + s[FirstNul(s) + 1..] == s
  {
  }

  lemma Rejoin(x: seq<Byte>, a: seq<Byte>, b: seq<Byte>)
    ensures x + [0] + (a + [0] + b) == x + [0] + a + [0] + b
  {
  }

  /** The cut pieces of the field that held the NUL, rejoined with its neighbour. */
  lemma ShiftedCollides(c: Context)
    requires !Clean(c)
    ensures Shifted(c) != c && ContextBytes(Shifted(c)) == ContextBytes(c)
  {
    hide FirstNul;
    if 0 in c.displayName {
      var k := FirstNul(c.displayName);
      CutAtNul(c.displayName);
      Rejoin(c.displayName[..k], c.displayName[k + 1..], c.fingerprint);
    } else if 0 in c.fingerprint {
      var k := FirstNul(c.fingerprint);
      CutAtNul(c.fingerprint);
      Rejoin(c.displayName, c.fingerprint[..k], c.fingerprint[k + 1..]);
    } else if 0 in c.subjectDeviceId {
      var k := FirstNul(c.subjectDeviceId);
      CutAtNul(c.subjectDeviceId);
      Rejoin(c.displayName, c.fingerprint, c.subjectDeviceId[..k]);
      Rejoin(c.displayName + [0] + c.fingerprint, c.subjectDeviceId[..k], c.subjectDeviceId[k + 1..]);
    } else {
      var k := FirstNul(c.sessionId);
      var front := c.displayName + [0] + c.fingerprint;
      CutAtNul(c.sessionId);
      Rejoin(front, c.subjectDeviceId, c.sessionId[..k]);
      Rejoin(front + [0] + c.subjectDeviceId, c.sessionId[..k], c.sessionId[k + 1..]);
    }
  }

  ghost predicate Unique(c: Context) { forall d :: ContextBytes(d) == ContextBytes(c) ==> d == c }

  /** Exactly the NUL-free contexts share their bytes with no other context. */
  lemma ContextUniqueIffClean(c: Context)
    ensures Unique(c) <==> Clean(c)
  {
    if Clean(c) {
      forall d | ContextBytes(d) == ContextBytes(c) ensures d == c { CleanIsAlone(c, d); }
    } else {
      ShiftedCollides(c);
    }
  }

  lemma CleanIsAlone(c: Context, d: Context)
    requires Clean(c) && ContextBytes(d) == ContextBytes(c)
    ensures d == c
  {
    hide ContextBytes;
    NulsOfContext(c);
    NulsOfContext(d);
    ContextDetermined(c, d);
  }

  /** With keys of one length and NUL-free session ids, the bytes determine key, session and granter. */
  lemma GrantDetermined(g: Grant, h: Grant)
    requires |g.subjectKey| == |h.subjectKey|
    requires 0 !in g.sessionId && 0 !in h.sessionId
    requires GrantBytes(g) == GrantBytes(h)
    ensures g == h
  {
    AfterKey(g);
    AfterKey(h);
    SplitFirst(g.sessionId, g.granterDeviceId, h.sessionId, h.granterDeviceId);
  }

  lemma AfterKey(g: Grant)
    ensures GrantBytes(g)[..|g.subjectKey|] == g.subjectKey
    ensures GrantBytes(g)[|g.subjectKey| + 1..] == g.sessionId + [0] + g.granterDeviceId
  {
  }

  /** The first separator is found from the left when nothing before it contains a NUL. */
  lemma SplitFirst(x: seq<Byte>, y: seq<Byte>, x': seq<Byte>, y': seq<Byte>)
    requires x + [0] + y == x' + [0] + y'
    requires 0 !in x && 0 !in x'
    ensures x == x' && y == y'
  {
    var s := x + [0] + y;
    assert s[|x|] == 0 && s[|x'|] == 0;
    assert forall i :: 0 <= i < |x| ==> s[i] == x[i] && s[i] in x;
    assert forall i :: 0 <= i < |x'| ==> s[i] == x'[i] && s[i] in x';
    assert x == s[..|x|] && y == s[|x| + 1..] && x' == s[..|x'|] && y' == s[|x'| + 1..];
  }

  ghost predicate UniqueGrant(g: Grant) {
    forall h: Grant :: |h.subjectKey| == |g.subjectKey| && GrantBytes(h) == GrantBytes(g) ==> h == g
  }

  /** Among keys of one length, a grant's bytes are its own exactly when neither id contains a NUL. */
  lemma GrantUniqueIffClean(g: Grant)
    ensures UniqueGrant(g) <==> 0 !in g.sessionId && 0 !in g.granterDeviceId
  {
    hide FirstNul;
    if 0 in g.sessionId {
      var k := FirstNul(g.sessionId);
      CutAtNul(g.sessionId);
      var h := g.(sessionId := g.sessionId[..k], granterDeviceId := g.sessionId[k + 1..] + [0] + g.granterDeviceId);
      Rejoin(g.subjectKey, h.sessionId, g.sessionId[k + 1..]);
      Rejoin(g.subjectKey + [0] + h.sessionId, g.sessionId[k + 1..], g.granterDeviceId);
      assert GrantBytes(h) == GrantBytes(g) && h != g;
    } else if 0 in g.granterDeviceId {
      var k := FirstNul(g.granterDeviceId);
      CutAtNul(g.granterDeviceId);
      var h := g.(sessionId := g.sessionId + [0] + g.granterDeviceId[..k],
                  granterDeviceId := g.granterDeviceId[k + 1..]);
      Rejoin(g.subjectKey, g.sessionId, g.granterDeviceId[..k]);
      Rejoin(g.subjectKey + [0] + g.sessionId, g.granterDeviceId[..k], h.granterDeviceId);
      assert GrantBytes(h) == GrantBytes(g) && h != g;
    } else {
      forall h: Grant | |h.subjectKey| == |g.subjectKey| && GrantBytes(h) == GrantBytes(g) ensures h == g {
        CleanGrantIsAlone(g, h);
      }
    }
  }

  lemma NulsOfGrant(g: Grant)
    ensures Nuls(GrantBytes(g)) == 2 + Nuls(g.subjectKey) + Nuls(g.sessionId) + Nuls(g.granterDeviceId)
    ensures GrantBytes(g)[..|g.subjectKey|] == g.subjectKey
  {
  }

  lemma CleanGrantIsAlone(g: Grant, h: Grant)
    requires 0 !in g.sessionId && 0 !in g.granterDeviceId
    requires |h.subjectKey| == |g.subjectKey| && GrantBytes(h) == GrantBytes(g)
    ensures h == g
  {
    hide GrantBytes;
    NulsOfGrant(g);
    NulsOfGrant(h);
    GrantDetermined(g, h);
  }
}

/** A reader that pages through one workflow's events from the last number it saw while events keep being
    appended and trimmed, and the snapshot built from a single read. */
module Replay {
  import opened Prelude
  import opened Ring

  const ACTIVITY_CAP := 500
  const RING_READ_LIMIT := 5_500

  datatype Op = Add(draft: Draft) | Page(limit: nat)

  /** Everything appended so far, the last number the reader saw, and all pages it got, joined. */
  datatype Reader = Reader(drafts: seq<Draft>, last: int, seen: seq<Event>)

  function Cut(r: Ring): int { if r.cut.Some? then r.cut.value.before else 0 }

  function PageAfter(drafts: seq<Draft>, after: int, limit: nat): seq<Event> {
    EventsAfter(Appended(drafts).rows, after, limit)
  }

  function Step(s: Reader, op: Op): Reader {
    match op
    case Add(d) => s.(drafts := s.drafts + [d])
    case Page(limit) =>
      var page := PageAfter(s.drafts, s.last, limit);
      s.(last := if page == [] then s.last else page[|page| - 1].seqNo, seen := s.seen + page)
  }

  function Play(from: int, ops: seq<Op>): Reader {
    if ops == [] then Reader([], from, [])
    else Step(Play(from, ops[..|ops| - 1]), ops[|ops| - 1])
  }

  function Later(a: int, b: int): int { if a < b then b else a }

  /** The page holds exactly the events numbered from just past `after` or the cut, whichever is later. */
  ghost predicate IsPage(page: seq<Event>, drafts: seq<Draft>, cut: int, after: int, limit: nat) {
    var start := Later(after, cut);
    |page| == (if start >= |drafts| then 0 else if |drafts| - start < limit then |drafts| - start else limit)
    && forall i :: 0 <= i < |page| ==> 0 <= start + i < |drafts| && page[i] == Event(start + 1 + i, drafts[start + i])
  }

  lemma CutOf(drafts: seq<Draft>)
    ensures var r, c := Appended(drafts), Cut(Appended(drafts));
            0 <= c <= |drafts| && |r.rows| == |drafts| - c
            && (forall i :: 0 <= i < |r.rows| ==> r.rows[i].event == Event(c + 1 + i, drafts[c + i]))
            && Numbered(r.rows, c + 1) && (drafts != [] ==> c < |drafts|)
  {
    hide Appended, Fits;
    Conservation(drafts);
  }

  lemma PageIs(drafts: seq<Draft>, after: int, limit: nat)
    ensures IsPage(PageAfter(drafts, after, limit), drafts, Cut(Appended(drafts)), after, limit)
  {
    hide Appended, Cut, EventsAfter;
    CutOf(drafts);
    PageOf(Appended(drafts).rows, Cut(Appended(drafts)) + 1, after, limit);
  }

  lemma CutGrows(drafts: seq<Draft>, d: Draft)
    ensures Cut(Appended(drafts)) <= Cut(Appended(drafts + [d]))
  {
    hide Appended, Cut, Fits, NewRow, CutLength;
    CutOf(drafts);
    CutOf(drafts + [d]);
    AppendedSnoc(drafts, d);
  }

  ghost predicate Saw(seen: seq<Event>, q: int) { exists i :: 0 <= i < |seen| && seen[i].seqNo == q }

  /** Each event is the one appended under its number, past the start. */
  ghost predicate Genuine(from: int, drafts: seq<Draft>, seen: seq<Event>) {
    forall i :: 0 <= i < |seen| ==>
      from < seen[i].seqNo && 1 <= seen[i].seqNo <= |drafts|
      && seen[i] == Event(seen[i].seqNo, drafts[seen[i].seqNo - 1])
  }

  ghost predicate Ascending(seen: seq<Event>) { forall i, j :: 0 <= i < j < |seen| ==> seen[i].seqNo < seen[j].seqNo }

  ghost predicate SkipsOnlyTrimmed(from: int, cut: int, last: int, seen: seq<Event>) {
    forall q :: from < q <= last && q >= 1 ==> q <= cut || Saw(seen, q)
  }

  ghost predicate Faithful(from: int, s: Reader) {
    && s.last == (if s.seen == [] then from else s.seen[|s.seen| - 1].seqNo)
    && Genuine(from, s.drafts, s.seen)
    && Ascending(s.seen)
    && SkipsOnlyTrimmed(from, Cut(Appended(s.drafts)), s.last, s.seen)
  }

  lemma PageAscends(from: int, drafts: seq<Draft>, cut: int, last: int, seen: seq<Event>, limit: nat, page: seq<Event>)
    requires last == (if seen == [] then from else seen[|seen| - 1].seqNo) && cut >= 0
    requires Genuine(from, drafts, seen) && Ascending(seen) && IsPage(page, drafts, cut, last, limit)
    ensures Genuine(from, drafts, seen + page) && Ascending(seen + page)
  {
    assert forall i :: 0 <= i < |seen| ==> seen[i].seqNo <= last;
  }

  lemma PageSkips(from: int, drafts: seq<Draft>, cut: int, last: int, seen: seq<Event>, limit: nat, page: seq<Event>)
    requires SkipsOnlyTrimmed(from, cut, last, seen) && IsPage(page, drafts, cut, last, limit) && page != []
    ensures SkipsOnlyTrimmed(from, cut, page[|page| - 1].seqNo, seen + page)
  {
    var start, all := Later(last, cut), seen + page;
    forall q | from < q <= page[|page| - 1].seqNo && q >= 1 && q > cut ensures Saw(all, q) {
      if q <= last {
        assert Saw(seen, q);
        var i :| 0 <= i < |seen| && seen[i].seqNo == q;
        assert all[i].seqNo == q;
      } else {
        assert page[q - start - 1].seqNo == q;
        assert all[|seen| + q - start - 1].seqNo == q;
      }
    }
  }

  lemma PageKeeps(from: int, s: Reader, limit: nat)
    requires Faithful(from, s)
    ensures Faithful(from, Step(s, Page(limit)))
  {
    hide PageAfter, Appended, Cut, Genuine, Ascending, SkipsOnlyTrimmed;
    PageIs(s.drafts, s.last, limit);
    CutOf(s.drafts);
    var page, cut := PageAfter(s.drafts, s.last, limit), Cut(Appended(s.drafts));
    PageAscends(from, s.drafts, cut, s.last, s.seen, limit, page);
    if page != [] {
      PageSkips(from, s.drafts, cut, s.last, s.seen, limit, page);
    } else {
      assert s.seen + page == s.seen;
    }
  }

  lemma AddKeeps(from: int, s: Reader, d: Draft)
    requires Faithful(from, s)
    ensures Faithful(from, Step(s, Add(d)))
  {
    hide Appended, Cut, Ascending;
    CutGrows(s.drafts, d);
  }

  lemma NothingRead(from: int)
    ensures Faithful(from, Play(from, []))
  {
  }

  /** However pages and appends interleave, what the reader has is duplicate-free and in order, each event as
      it was appended, and the only numbers it skipped lie at or below the cut. */
  lemma {:induction false} PagingIsFaithful(from: int, ops: seq<Op>)
    ensures Faithful(from, Play(from, ops))
  {
    hide Faithful, Step;
    if ops == [] {
      NothingRead(from);
    } else {
      var n := |ops| - 1;
      PagingIsFaithful(from, ops[..n]);
      match ops[n]
      case Add(d) => AddKeeps(from, Play(from, ops[..n]), d);
      case Page(limit) => PageKeeps(from, Play(from, ops[..n]), limit);
    }
  }

  /** A page shorter than its limit means the reader now holds the newest number. */
  lemma ShortPageIsCaughtUp(from: nat, ops: seq<Op>, limit: nat)
    requires |PageAfter(Play(from, ops).drafts, Play(from, ops).last, limit)| < limit
    ensures var s := Play(from, ops + [Page(limit)]);
            s.last >= |s.drafts| && (from <= |s.drafts| ==> s.last == |s.drafts|)
  {
    hide PageAfter, Appended, Cut;
    var s := Play(from, ops);
    assert (ops + [Page(limit)])[..|ops|] == ops;
    assert Play(from, ops + [Page(limit)]) == Step(s, Page(limit));
    assert Faithful(from, s) by { hide Faithful; PagingIsFaithful(from, ops); }
    CutOf(s.drafts);
    PageIs(s.drafts, s.last, limit);
  }

  // --- the snapshot -----------------------------------------------------------------------------

  datatype Snapshot = Snapshot(lastSeqNo: int, activity: seq<Event>)

  function SnapshotOf(events: seq<Event>): Snapshot {
    var tailStart := if |events| < ACTIVITY_CAP then 0 else |events| - ACTIVITY_CAP;
    Snapshot(if events == [] then 0 else events[|events| - 1].seqNo, events[tailStart..])
  }

  /** The single bounded read still yields the true high-water mark and the newest events. */
  lemma SnapshotIsNewest(drafts: seq<Draft>)
    ensures var s, kept := SnapshotOf(PageAfter(drafts, 0, RING_READ_LIMIT)), |Appended(drafts).rows|;
            s.lastSeqNo == |drafts|
            && |s.activity| == (if kept < 500 then kept else 500) <= |drafts|
            && forall i :: 0 <= i < |s.activity| ==>
                 var q := |drafts| - |s.activity| + i; s.activity[i] == Event(q + 1, drafts[q])
  {
    hide PageAfter, Appended, Cut;
    PageIs(drafts, 0, RING_READ_LIMIT);
    CutOf(drafts);
    Conservation(drafts);
  }
}

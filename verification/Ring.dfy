/** One workflow's event ring: appending, trimming by two budgets at once, and replay. Rows are in
    primary-key order. */
module Ring {
  import opened EventTypes
  import opened Prelude
  import Utf8

  const MAX_RING_EVENTS: int := 5_000
  const MAX_RING_BYTES: int := 10 * 1024 * 1024

  datatype Draft = Draft(
    eventId: string, sessionId: Option<string>, occurredAt: int, eventType: EventType, summary: string,
    detail: Option<string>)

  datatype Event = Event(seqNo: int, draft: Draft)

  datatype Row = Row(event: Event, bytes: nat)

  /** The `ring_truncations` row. */
  datatype Truncation = Truncation(before: int, dropped: int)

  datatype Ring = Ring(rows: seq<Row>, cut: Option<Truncation>)

  const FRESH := Ring([], None)

  function Length(s: Option<string>): nat { if s.Some? then |Utf8.Bytes(s.value)| else 0 }

  function ApproxBytes(d: Draft): nat {
    64 + |Utf8.Bytes(d.summary)| + Length(d.detail) + |Utf8.Bytes(d.eventId)| + Length(d.sessionId)
  }

  function Sum(rows: seq<Row>): nat { if rows == [] then 0 else rows[0].bytes + Sum(rows[1..]) }

  predicate Fits(rows: seq<Row>) { |rows| <= MAX_RING_EVENTS && Sum(rows) <= MAX_RING_BYTES }

  /** How many of the oldest rows must go: the fewest that leave both budgets met, or all but one. */
  function CutLength(rows: seq<Row>): (k: nat)
    ensures rows == [] ==> k == 0
    ensures rows != [] ==> k < |rows|
  {
    if |rows| <= 1 || Fits(rows) then 0 else 1 + CutLength(rows[1..])
  }

  /** `DELETE … seq_no <= cutoff`. */
  function DeleteUpTo(rows: seq<Row>, cutoff: int): seq<Row> {
    if rows == [] then []
    else (if rows[0].event.seqNo <= cutoff then [] else [rows[0]]) + DeleteUpTo(rows[1..], cutoff)
  }

  /** The upsert of the truncation row. */
  function RecordCut(cut: Option<Truncation>, cutoff: int, deleted: int): Truncation {
    match cut
    case None => Truncation(cutoff, deleted)
    case Some(t) => Truncation(if t.before < cutoff then cutoff else t.before, t.dropped + deleted)
  }

  function Trim(r: Ring): Ring {
    var k := CutLength(r.rows);
    if k == 0 then r
    else Ring(r.rows[k..], Some(RecordCut(r.cut, r.rows[k - 1].event.seqNo, k)))
  }

  /** `COALESCE(MAX(seq_no), 0) + 1` over rows in key order. */
  function NextSeq(rows: seq<Row>): int { if rows == [] then 1 else rows[|rows| - 1].event.seqNo + 1 }

  function NewRow(r: Ring, d: Draft): Row { Row(Event(NextSeq(r.rows), d), ApproxBytes(d)) }

  function Append(r: Ring, d: Draft): Ring { Trim(Ring(r.rows + [NewRow(r, d)], r.cut)) }

  /** Replay: rows strictly after `after`, oldest first, at most `limit`. */
  function EventsAfter(rows: seq<Row>, after: int, limit: nat): (r: seq<Event>)
    ensures |r| <= limit
  {
    if rows == [] || limit == 0 then []
    else if rows[0].event.seqNo > after then [rows[0].event] + EventsAfter(rows[1..], after, limit - 1)
    else EventsAfter(rows[1..], after, limit)
  }

  // --- the invariant ----------------------------------------------------------------------

  ghost predicate Numbered(rows: seq<Row>, first: int) {
    forall i :: 0 <= i < |rows| ==> rows[i].event.seqNo == first + i
  }

  /** The rows are the tail of everything ever appended, and the truncation row says where it starts. */
  ghost predicate Follows(history: seq<Row>, r: Ring) {
    var c := |history| - |r.rows|;
    0 <= c && r.rows == history[c..] && r.cut == if c == 0 then None else Some(Truncation(c, c))
  }

  ghost predicate Bounded(r: Ring) { Fits(r.rows) || |r.rows| == 1 }

  ghost predicate Tracks(history: seq<Row>, r: Ring) {
    Numbered(history, 1) && Follows(history, r) && Bounded(r) && (history != [] ==> r.rows != [])
  }

  /** The shortest cut that meets both budgets; the newest row always survives. */
  lemma {:induction false} CutIsShortest(rows: seq<Row>)
    requires rows != []
    ensures Fits(rows[CutLength(rows)..]) || |rows[CutLength(rows)..]| == 1
    ensures forall j :: 0 <= j < CutLength(rows) ==> !Fits(rows[j..])
  {
    if |rows| > 1 && !Fits(rows) {
      var tail := rows[1..];
      CutIsShortest(tail);
      assert rows[CutLength(rows)..] == tail[CutLength(tail)..];
      forall j | 0 <= j < CutLength(rows) ensures !Fits(rows[j..]) {
        if j == 0 { assert rows[0..] == rows; } else { assert rows[j..] == tail[j - 1..]; }
      }
    } else {
      assert rows[0..] == rows;
    }
  }

  /** The two budgets. */
  lemma FitsIff(rows: seq<Row>)
    ensures Fits(rows) <==> |rows| <= 5_000 && Sum(rows) <= 10_485_760
  {
  }

  lemma SuffixOfSuffix(history: seq<Row>, c: nat, k: nat)
    requires c + k <= |history|
    ensures history[c..][k..] == history[c + k..]
    ensures k > 0 ==> history[c..][k - 1] == history[c + k - 1]
  {
  }

  lemma TrimFollows(history: seq<Row>, r: Ring)
    requires Numbered(history, 1) && Follows(history, r) && r.rows != []
    ensures Follows(history, Trim(r)) && Bounded(Trim(r)) && Trim(r).rows != []
  {
    hide Fits, CutLength;
    var c, k := |history| - |r.rows|, CutLength(r.rows);
    CutIsShortest(r.rows);
    SuffixOfSuffix(history, c, k);
    assert r.rows[0..] == r.rows;
  }

  /** One append numbers the event n+1, keeps it, and leaves a ring that still tracks the history. */
  lemma AppendTracks(history: seq<Row>, r: Ring, d: Draft)
    requires Tracks(history, r)
    ensures NewRow(r, d).event.seqNo == |history| + 1
    ensures Tracks(history + [NewRow(r, d)], Append(r, d))
  {
    hide Fits, ApproxBytes, Trim;
    var c, row := |history| - |r.rows|, NewRow(r, d);
    if r.rows != [] { assert r.rows[|r.rows| - 1] == history[|history| - 1]; }
    assert history[c..] + [row] == (history + [row])[c..];
    TrimFollows(history + [row], Ring(r.rows + [row], r.cut));
  }

  lemma RowOfDraft(r: Ring, d: Draft)
    ensures NewRow(r, d) == Row(Event(NextSeq(r.rows), d), ApproxBytes(d))
    ensures Append(r, d) == Trim(Ring(r.rows + [NewRow(r, d)], r.cut))
  {
  }

  lemma FreshTracks()
    ensures Tracks([], FRESH)
  {
  }

  function Appended(drafts: seq<Draft>): Ring {
    if drafts == [] then FRESH else Append(Appended(drafts[..|drafts| - 1]), drafts[|drafts| - 1])
  }

  lemma {:induction false} AppendedSnoc(drafts: seq<Draft>, d: Draft)
    ensures Appended(drafts + [d]) == Append(Appended(drafts), d)
  {
    hide Append;
    assert (drafts + [d])[..|drafts|] == drafts;
  }

  function History(drafts: seq<Draft>): seq<Row> {
    if drafts == [] then []
    else
      var n := |drafts| - 1;
      History(drafts[..n]) + [NewRow(Appended(drafts[..n]), drafts[n])]
  }

  lemma {:induction false} EveryRunTracks(drafts: seq<Draft>)
    ensures Tracks(History(drafts), Appended(drafts)) && |History(drafts)| == |drafts|
    ensures forall i :: 0 <= i < |drafts| ==> History(drafts)[i].event.draft == drafts[i]
  {
    hide Fits, NewRow, Append, Tracks;
    if drafts == [] {
      FreshTracks();
    } else {
      var n := |drafts| - 1;
      EveryRunTracks(drafts[..n]);
      assert NewRow(Appended(drafts[..n]), drafts[n]).event.draft == drafts[n] by {
        RowOfDraft(Appended(drafts[..n]), drafts[n]);
      }
      AppendTracks(History(drafts[..n]), Appended(drafts[..n]), drafts[n]);
    }
  }

  /** In every reachable ring the surviving numbers are exactly cut+1 to n, with the events appended
      there; the cut is both the recorded boundary and the dropped count, so count + dropped = n. */
  lemma {:induction false} Conservation(drafts: seq<Draft>)
    ensures var r := Appended(drafts);
            var cut := if r.cut.Some? then r.cut.value.dropped else 0;
            |r.rows| + cut == |drafts|
            && (r.cut.Some? ==> r.cut.value.before == cut > 0)
            && forall i :: 0 <= i < |r.rows| ==>
                 r.rows[i].event == Event(cut + 1 + i, drafts[cut + i])
    ensures forall i :: 0 <= i < |Appended(drafts).rows| ==> Sized(Appended(drafts).rows[i])
    ensures drafts != [] ==>
              var rows := Appended(drafts).rows;
              rows != [] && |rows| <= 5_000 && (Sum(rows) <= 10_485_760 || |rows| == 1)
  {
    EveryRunTracks(drafts);
    EveryRunSized(drafts);
    hide *;
    TailOfHistory(History(drafts), drafts, Appended(drafts));
  }

  lemma TailOfHistory(history: seq<Row>, drafts: seq<Draft>, r: Ring)
    requires Tracks(history, r) && |history| == |drafts|
    requires forall i :: 0 <= i < |drafts| ==> history[i].event.draft == drafts[i]
    ensures var cut := if r.cut.Some? then r.cut.value.dropped else 0;
            |r.rows| + cut == |drafts|
            && (r.cut.Some? ==> r.cut.value.before == cut > 0)
            && forall i :: 0 <= i < |r.rows| ==>
                 r.rows[i].event == Event(cut + 1 + i, drafts[cut + i])
    ensures drafts != [] ==> r.rows != [] && |r.rows| <= 5_000 && (Sum(r.rows) <= 10_485_760 || |r.rows| == 1)
  {
    Budgets(r);
    hide Bounded;
  }

  lemma Budgets(r: Ring)
    requires Bounded(r)
    ensures |r.rows| <= 5_000 && (Sum(r.rows) <= 10_485_760 || |r.rows| == 1)
  {
  }

  /** A row is charged 64 bytes and the UTF-8 length of its four texts. */
  predicate Sized(r: Row) {
    var d := r.event.draft;
    r.bytes == 64 + |Utf8.Bytes(d.summary)| + |Utf8.Bytes(d.eventId)|
               + (if d.detail.Some? then |Utf8.Bytes(d.detail.value)| else 0)
               + (if d.sessionId.Some? then |Utf8.Bytes(d.sessionId.value)| else 0)
  }

  lemma NewRowSized(r: Ring, d: Draft)
    ensures Sized(NewRow(r, d))
  {
    hide Utf8.Bytes;
  }

  lemma {:induction false} EveryRunSized(drafts: seq<Draft>)
    ensures forall i :: 0 <= i < |Appended(drafts).rows| ==> Sized(Appended(drafts).rows[i])
  {
    hide Sized, NewRow;
    if drafts != [] {
      var n := |drafts| - 1;
      EveryRunSized(drafts[..n]);
      NewRowSized(Appended(drafts[..n]), drafts[n]);
    }
  }

  // --- replay ---------------------------------------------------------------------------------

  /** A page is the run of history from just past `after` (or the cut) onwards, as far as `limit` goes. */
  lemma {:induction false} PageOf(rows: seq<Row>, first: int, after: int, limit: nat)
    requires Numbered(rows, first)
    ensures var skip := if after < first then 0 else if after - first + 1 < |rows| then after - first + 1 else |rows|;
            var size := if |rows| - skip < limit then |rows| - skip else limit;
            var page := EventsAfter(rows, after, limit);
            |page| == size && forall i :: 0 <= i < size ==> page[i] == rows[skip + i].event
  {
    if rows != [] && limit > 0 {
      assert Numbered(rows[1..], first + 1) by {
        assert forall i :: 0 <= i < |rows| - 1 ==> rows[1..][i] == rows[i + 1];
      }
      if rows[0].event.seqNo > after {
        PageOf(rows[1..], first + 1, after, limit - 1);
      } else {
        PageOf(rows[1..], first + 1, after, limit);
      }
    }
  }
}

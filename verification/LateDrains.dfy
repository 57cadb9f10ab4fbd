/** Drains of a finished child whose sinks still grow: a marker adapter flushes at every one of them, so a line that one
    of them cut comes out in pieces. */
module LateDrains {
  import opened Prelude
  import opened Lines

  // --- one stream -------------------------------------------------------------------------------

  /** What one drain sees of one sink, and whether the child is done. */
  datatype Look = Look(bytes: seq<Byte>, finished: bool)

  datatype Reading = Reading(stream: Stream, lines: seq<seq<Byte>>)

  function Read(looks: seq<Look>): Reading {
    if looks == [] then Reading(FRESH.out, [])
    else
      var n := |looks| - 1;
      var r, l := Read(looks[..n]), looks[n];
      Reading(Advance(r.stream, l.bytes, l.finished), r.lines + NewLines(r.stream, l.bytes, l.finished))
  }

  predicate Swells(a: Look, b: Look) { a.bytes <= b.bytes && (a.finished ==> b.finished) }

  ghost predicate Swelling(looks: seq<Look>) { forall i :: 0 < i < |looks| ==> Swells(looks[i - 1], looks[i]) }

  predicate Ended(b: seq<Byte>) { b == [] || b[|b| - 1] == NEWLINE }

  /** A finished drain flushed part of a line and the next one sees more. */
  predicate CutsLine(a: Look, b: Look) { a.finished && a.bytes != b.bytes && !Ended(a.bytes) }

  /** How many drains did so. */
  function Cuts(looks: seq<Look>): nat {
    if |looks| <= 1 then 0
    else
      var n := |looks| - 1;
      Cuts(looks[..n]) + if CutsLine(looks[n - 1], looks[n]) then 1 else 0
  }

  lemma RestEnded(b: seq<Byte>)
    ensures Split(b).rest == [] <==> Ended(b)
  {
    if b != [] { assert b == b[..|b| - 1] + [b[|b| - 1]]; }
  }

  /** Flushing between two pieces of a stream makes one line more if that cuts a line, and changes nothing otherwise. */
  lemma FlushBetween(a: seq<Byte>, b: seq<Byte>)
    ensures b == [] || Ended(a) ==> AllLines(a) + AllLines(b) == AllLines(a + b)
    ensures b != [] && !Ended(a) ==> |AllLines(a) + AllLines(b)| == |AllLines(a + b)| + 1
  {
    RestEnded(a);
    LateBytes(a, b);
    if b != [] && !Ended(a) {
      SplitResumes(a, b);
      RestHasNoLine(a);
      FlushedLength(Split(a).rest, b);
    }
  }

  /** What has come out of a stream: complete lines while the child runs, and afterwards everything, in at least as many
      lines as there are. */
  ghost predicate SoFar(r: Reading, l: Look, cuts: nat) {
    r.stream.cursor == |l.bytes|
    && if l.finished
       then r.stream.tail == [] && |r.lines| == |AllLines(l.bytes)| + cuts
         && (cuts == 0 ==> r.lines == AllLines(l.bytes))
       else r.stream.tail == Split(l.bytes).rest && r.lines == Split(l.bytes).lines && cuts == 0
  }

  lemma ReadOn(r: Reading, was: Look, l: Look, cuts: nat)
    requires SoFar(r, was, cuts) && Swells(was, l)
    ensures SoFar(Reading(Advance(r.stream, l.bytes, l.finished), r.lines + NewLines(r.stream, l.bytes, l.finished)), l,
                  if CutsLine(was, l) then cuts + 1 else cuts)
  {
    var more := l.bytes[|was.bytes|..];
    assert l.bytes == was.bytes + more;
    hide Split, AllLines, Ended;
    if was.finished {
      assert Unread(r.stream, l.bytes) == more;
      FlushBetween(was.bytes, more);
    } else {
      assert Unread(r.stream, l.bytes) == Split(was.bytes).rest + more;
      SplitResumes(was.bytes, more);
      hide Unread;
      AllOfCut(was.bytes, more);
    }
  }

  lemma AllOfCut(a: seq<Byte>, b: seq<Byte>)
    ensures Split(a).lines + AllLines(Split(a).rest + b) == AllLines(a + b)
  {
    SplitResumes(a, b);
  }

  lemma NothingSoFar(l: Look)
    ensures SoFar(Reading(FRESH.out, []), Look([], false), 0)
  {
  }

  lemma {:induction false} ReadIs(looks: seq<Look>)
    requires looks != [] && Swelling(looks)
    ensures SoFar(Read(looks), looks[|looks| - 1], Cuts(looks))
  {
    hide SoFar, CutsLine, Advance, NewLines;
    var n := |looks| - 1;
    if n == 0 {
      NothingSoFar(looks[0]);
      ReadOn(Read([]), Look([], false), looks[0], 0);
      NoCutYet(looks[0]);
      assert looks[..0] == [];
    } else {
      ReadIs(looks[..n]);
      assert looks[..n][n - 1] == looks[n - 1];
      ReadOn(Read(looks[..n]), looks[n - 1], looks[n], Cuts(looks[..n]));
    }
  }

  lemma NoCutYet(l: Look)
    ensures !CutsLine(Look([], false), l)
  {
  }

  // --- both streams -----------------------------------------------------------------------------

  function OutLooks(snaps: seq<Snap>): seq<Look> {
    seq(|snaps|, i requires 0 <= i < |snaps| => Look(snaps[i].stdout, snaps[i].exit.Some?))
  }

  function ErrLooks(snaps: seq<Snap>): seq<Look> {
    seq(|snaps|, i requires 0 <= i < |snaps| => Look(snaps[i].stderr, snaps[i].exit.Some?))
  }

  lemma {:induction false} PlayReads(prefix: string, snaps: seq<Snap>)
    ensures var t := Play(prefix, snaps);
            Read(OutLooks(snaps)) == Reading(t.state.out, t.out) && Read(ErrLooks(snaps)) == Reading(t.state.err, t.err)
  {
    hide Advance, NewLines, Session, Closing;
    if snaps != [] {
      var n := |snaps| - 1;
      PlayReads(prefix, snaps[..n]);
      assert OutLooks(snaps)[..n] == OutLooks(snaps[..n]) && ErrLooks(snaps)[..n] == ErrLooks(snaps[..n]);
    }
  }

  /** Sinks only grow, also after the child is done. */
  ghost predicate Loose(snaps: seq<Snap>) {
    forall i :: 0 < i < |snaps| ==>
      snaps[i - 1].stdout <= snaps[i].stdout && snaps[i - 1].stderr <= snaps[i].stderr
      && (snaps[i - 1].exit.Some? ==> snaps[i].exit.Some?)
  }

  /** No drain of the finished child that saw part of a line is followed by one that sees more. */
  ghost predicate NoLineCut(looks: seq<Look>) {
    forall i :: 0 < i < |looks| ==> !CutsLine(looks[i - 1], looks[i])
  }

  lemma {:induction false} CutsZero(looks: seq<Look>)
    ensures Cuts(looks) == 0 <==> NoLineCut(looks)
  {
    hide CutsLine;
    if |looks| > 1 {
      var n := |looks| - 1;
      CutsZero(looks[..n]);
      assert forall i :: 0 <= i < n ==> looks[..n][i] == looks[i];
    }
  }

  lemma Finished(looks: seq<Look>)
    requires looks != [] && Swelling(looks) && looks[|looks| - 1].finished
    ensures var all := AllLines(looks[|looks| - 1].bytes);
            |Read(looks).lines| == |all| + Cuts(looks) && (Read(looks).lines == all <==> NoLineCut(looks))
  {
    hide Read, Cuts, NoLineCut, AllLines, Split;
    ReadIs(looks);
    CutsZero(looks);
  }

  /** For any drains of sinks that may go on growing after the child is done: each stream's lines are those of one
      parse of everything it came to hold if and only if no drain of the finished child cut a line, and each that
      did makes one line more. */
  lemma EarlyFlushIff(prefix: string, snaps: seq<Snap>)
    requires snaps != [] && Loose(snaps) && snaps[|snaps| - 1].exit.Some?
    ensures var t, last := Play(prefix, snaps), snaps[|snaps| - 1];
            (t.out == AllLines(last.stdout) <==> NoLineCut(OutLooks(snaps)))
            && (t.err == AllLines(last.stderr) <==> NoLineCut(ErrLooks(snaps)))
            && |t.out| == |AllLines(last.stdout)| + Cuts(OutLooks(snaps))
            && |t.err| == |AllLines(last.stderr)| + Cuts(ErrLooks(snaps))
  {
    hide Play, AllLines, Cuts, NoLineCut, Read;
    PlayReads(prefix, snaps);
    Finished(OutLooks(snaps));
    Finished(ErrLooks(snaps));
  }
}

/** The generic adapter's drain, which decodes the whole sink each time and counts lines instead of bytes. */
module GenericLines {
  import opened EventTypes
  import opened Prelude
  import Decimal
  import Lines
  import Utf8

  /** Complete text lines without their line feeds, and what follows the last one. */
  datatype TextCut = TextCut(lines: seq<string>, rest: string)

  function SplitText(t: string): TextCut {
    if t == "" then TextCut([], "")
    else
      var n := |t| - 1;
      var c := SplitText(t[..n]);
      if t[n] == '\n' then TextCut(c.lines + [c.rest], "") else TextCut(c.lines, c.rest + [t[n]])
  }

  function StripReturn(line: string): string {
    if line != "" && line[|line| - 1] == '\r' then line[..|line| - 1] else line
  }

  function StripAll(lines: seq<string>): seq<string> {
    seq(|lines|, i requires 0 <= i < |lines| => StripReturn(lines[i]))
  }

  /** `str::lines`: one carriage return before a line feed goes too; an unterminated last line is kept as it is. */
  function TextLines(t: string): seq<string> {
    StripAll(SplitText(t).lines) + if SplitText(t).rest == "" then [] else [SplitText(t).rest]
  }

  function LossyAll(raws: seq<seq<Lines.Byte>>): seq<string> {
    seq(|raws|, i requires 0 <= i < |raws| => Utf8.Lossy(raws[i]))
  }

  // --- decoding a prefix and decoding the whole agree on every complete line ----------------------

  lemma {:induction false} NoNewlineText(t: string)
    requires '\n' !in t
    ensures SplitText(t) == TextCut([], t)
  {
    if t != "" {
      var n := |t| - 1;
      assert t == t[..n] + [t[n]];
      NoNewlineText(t[..n]);
    }
  }

  lemma {:induction false} TextAfterNewline(x: string, y: string)
    requires '\n' !in y
    ensures SplitText(x + ['\n'] + y) == TextCut(SplitText(x).lines + [SplitText(x).rest], y)
  {
    var t := x + ['\n'] + y;
    if y == "" {
      assert t[..|t| - 1] == x;
    } else {
      var n := |y| - 1;
      assert t[..|t| - 1] == x + ['\n'] + y[..n] && y == y[..n] + [y[n]];
      TextAfterNewline(x, y[..n]);
    }
  }

  lemma {:induction false} LastNewline(b: seq<Lines.Byte>) returns (a: seq<Lines.Byte>)
    ensures Lines.NEWLINE !in Lines.Split(b).rest
    ensures Lines.Split(b).lines == [] ==> Lines.Split(b).rest == b
    ensures Lines.Split(b).lines != [] ==>
              |a| < |b| && b == a + [Lines.NEWLINE] + Lines.Split(b).rest
              && Lines.Split(b).lines == Lines.Split(a).lines + [Lines.Split(a).rest]
  {
    a := [];
    if b != [] {
      var n := |b| - 1;
      assert b == b[..n] + [b[n]];
      if b[n] == Lines.NEWLINE {
        a := b[..n];
      } else {
        a := LastNewline(b[..n]);
        if Lines.Split(b).lines != [] {
          assert b[..n] + [b[n]] == a + [Lines.NEWLINE] + (Lines.Split(b[..n]).rest + [b[n]]);
        }
      }
    }
  }

  lemma LossyNoNewline(r: seq<Lines.Byte>)
    requires Lines.NEWLINE !in r
    ensures '\n' !in Utf8.Lossy(r)
  {
    Utf8.LossyAtNewline(r, []);
  }

  /** Lines of the decoded text are the decoded lines of the bytes. */
  lemma {:induction false} DecodeThenSplit(b: seq<Lines.Byte>)
    ensures SplitText(Utf8.Lossy(b)) == TextCut(LossyAll(Lines.Split(b).lines), Utf8.Lossy(Lines.Split(b).rest))
    decreases |b|
  {
    hide Lines.Split, SplitText, Utf8.Lossy;
    var a := LastNewline(b);
    var r := Lines.Split(b).rest;
    LossyNoNewline(r);
    if Lines.Split(b).lines == [] {
      NoNewlineText(Utf8.Lossy(b));
    } else {
      DecodeThenSplit(a);
      Utf8.LossyAtNewline(a, r);
      TextAfterNewline(Utf8.Lossy(a), Utf8.Lossy(r));
    }
  }

  /** What the adapter reports of a sink: complete lines, then the fragment. */
  lemma {:induction false} LinesOfSink(b: seq<Lines.Byte>)
    ensures var t, c := Utf8.Lossy(b), Lines.Split(b);
            TextLines(t) ==
              StripAll(LossyAll(c.lines)) + (if Utf8.Lossy(c.rest) == "" then [] else [Utf8.Lossy(c.rest)])
            && (Utf8.Lossy(c.rest) == "" <==> c.rest == [])
            && (t == "" || t[|t| - 1] == '\n' <==> c.rest == [])
  {
    hide Lines.Split;
    DecodeThenSplit(b);
    LastChar(Utf8.Lossy(b));
    LossyEmpty(Lines.Split(b).rest);
  }

  lemma LossyEmpty(r: seq<Lines.Byte>)
    ensures Utf8.Lossy(r) == "" <==> r == []
  {
  }

  lemma LastChar(t: string)
    ensures SplitText(t).rest == "" <==> t == "" || t[|t| - 1] == '\n'
  {
  }

  // --- one drain --------------------------------------------------------------------------------

  type Event = Lines.ProviderEvent

  function Started(summary: string): Event { Lines.Plain(CommandStarted, summary) }

  function Line(text: string): Event { Lines.Plain(EventType.Unspecified, text) }

  function Errors(text: string): Event { Lines.Plain(ErrorOccurred, text) }

  function Completed(code: nat): Event {
    Lines.Plain(CommandCompleted, "completed with exit code " + Decimal.Digits(code))
  }

  datatype Sight = Sight(stdout: seq<Lines.Byte>, stderr: seq<Lines.Byte>, exit: Option<nat>)

  datatype Counter = Counter(pending: Option<string>, emitted: nat, completed: bool)

  /** How many lines may be reported: all of them, or all but a fragment of a running child that is still unreported. */
  function UpTo(c: Counter, s: Sight): nat {
    var text := Utf8.Lossy(s.stdout);
    var total := |TextLines(text)|;
    if s.exit == None && (text == "" || text[|text| - 1] != '\n') && total > c.emitted then total - 1 else total
  }

  function From(c: Counter, s: Sight): nat { if c.emitted < UpTo(c, s) then c.emitted else UpTo(c, s) }

  function NewText(c: Counter, s: Sight): (r: seq<string>) {
    if c.completed then [] else TextLines(Utf8.Lossy(s.stdout))[From(c, s)..UpTo(c, s)]
  }

  function LineEvents(lines: seq<string>): seq<Event> { seq(|lines|, i requires 0 <= i < |lines| => Line(lines[i])) }

  function Opening(c: Counter): seq<Event> { if c.pending.Some? then [Started(c.pending.value)] else [] }

  function Ending(c: Counter, s: Sight): seq<Event> {
    if c.completed || s.exit == None then []
    else (if s.stderr == [] then [] else [Errors(Utf8.Lossy(s.stderr))]) + [Completed(s.exit.value)]
  }

  function Next(c: Counter, s: Sight): Counter {
    Counter(None, if c.completed then c.emitted else UpTo(c, s), c.completed || s.exit.Some?)
  }

  class GenericAdapter {
    var pending: Option<string>
    var emittedLines: nat
    var completed: bool

    function Contents(): Counter
      reads this
    {
      Counter(pending, emittedLines, completed)
    }

    /** A successful spawn. */
    constructor (summary: string)
      ensures Contents() == Counter(Some(summary), 0, false)
    {
      pending, emittedLines, completed := Some(summary), 0, false;
    }

    method Drain(s: Sight) returns (out: seq<Event>)
      modifies this
      ensures Contents() == Next(old(Contents()), s)
      ensures out == Opening(old(Contents())) + LineEvents(NewText(old(Contents()), s)) + Ending(old(Contents()), s)
    {
      hide SplitText, StripAll, Utf8.Lossy, TextLines, Started, Line, Errors, Completed, LineEvents;
      NoLines();
      out := [];
      if pending.Some? {
        out := out + [Started(pending.value)];
        pending := None;
      }
      if completed { return; }
      var text := Utf8.Lossy(s.stdout);
      var lines := TextLines(text);
      var total := |lines|;
      var emitUpTo := total;
      if s.exit == None && (text == "" || text[|text| - 1] != '\n') && total > emittedLines {
        emitUpTo := total - 1;
      }
      var from := if emittedLines < emitUpTo then emittedLines else emitUpTo;
      out := EmitLines(lines, from, emitUpTo, out);
      emittedLines := emitUpTo;
      if s.exit.Some? {
        if s.stderr != [] { out := out + [Errors(Utf8.Lossy(s.stderr))]; }
        out := out + [Completed(s.exit.value)];
        completed := true;
      }
    }
  }

  method EmitLines(lines: seq<string>, from: nat, upTo: nat, before: seq<Event>) returns (out: seq<Event>)
    requires from <= upTo <= |lines|
    ensures out == before + LineEvents(lines[from..upTo])
  {
    out := before;
    for i := from to upTo
      invariant out == before + LineEvents(lines[from..i])
    {
      out := out + [Line(lines[i])];
    }
  }

  // --- any schedule of drains -------------------------------------------------------------------

  datatype Trace = Trace(counter: Counter, starts: seq<Event>, lines: seq<string>, ended: seq<Event>)

  function Play(summary: string, sights: seq<Sight>): Trace {
    if sights == [] then Trace(Counter(Some(summary), 0, false), [], [], [])
    else
      var n := |sights| - 1;
      var t := Play(summary, sights[..n]);
      Trace(Next(t.counter, sights[n]), t.starts + Opening(t.counter), t.lines + NewText(t.counter, sights[n]),
            t.ended + Ending(t.counter, sights[n]))
  }

  predicate Follows(a: Sight, b: Sight) {
    a.stdout <= b.stdout && (a.exit.Some? ==> b.stdout == a.stdout && b.exit == a.exit)
  }

  ghost predicate Growing(sights: seq<Sight>) { forall i :: 0 < i < |sights| ==> Follows(sights[i - 1], sights[i]) }

  /** While the child runs, exactly the complete lines are out; once a drain saw it finished, all lines are. */
  ghost predicate InStep(c: Counter, lines: seq<string>, s: Sight) {
    c.completed == s.exit.Some?
    && if s.exit.Some? then lines == TextLines(Utf8.Lossy(s.stdout))
       else lines == StripAll(LossyAll(Lines.Split(s.stdout).lines)) && c.emitted == |lines|
  }

  lemma PrefixKept(olds: seq<seq<Lines.Byte>>, news: seq<seq<Lines.Byte>>)
    requires olds <= news
    ensures StripAll(LossyAll(olds)) <= StripAll(LossyAll(news)) && |StripAll(LossyAll(olds))| == |olds|
  {
    hide StripReturn, Utf8.Lossy;
    assert forall i :: 0 <= i < |olds| ==> news[i] == olds[i];
  }

  /** Where the counts stand against the lines of a sink that grew. */
  lemma UpToIs(c: Counter, s: Sight)
    requires !c.completed && c.emitted <= |Lines.Split(s.stdout).lines|
    requires s.stdout == [] ==> c.emitted == 0
    ensures var cut, text := Lines.Split(s.stdout), TextLines(Utf8.Lossy(s.stdout));
            UpTo(c, s) == (if s.exit == None then |cut.lines| else |text|)
            && From(c, s) == c.emitted && |cut.lines| <= |text| && text[..|cut.lines|] == StripAll(LossyAll(cut.lines))
            && |StripAll(LossyAll(cut.lines))| == |cut.lines|
  {
    LinesOfSink(s.stdout);
    LossyEmpty(s.stdout);
    if s.stdout == [] { assert Lines.Split(s.stdout).lines == []; }
    hide Lines.Split, TextLines, Utf8.Lossy, StripReturn;
  }

  lemma NewTextIs(c: Counter, done: seq<Lines.Byte>, s: Sight)
    requires !c.completed && done <= s.stdout && c.emitted == |Lines.Split(done).lines|
    ensures var before, after := StripAll(LossyAll(Lines.Split(done).lines)),
            StripAll(LossyAll(Lines.Split(s.stdout).lines));
            before <= after
            && (s.exit == None ==> UpTo(c, s) == |after| && before + NewText(c, s) == after)
            && (s.exit.Some? ==> before + NewText(c, s) == TextLines(Utf8.Lossy(s.stdout)))
  {
    if s.stdout == [] { assert done == []; }
    hide Lines.Split, TextLines, Utf8.Lossy, StripReturn, UpTo, From;
    var more := s.stdout[|done|..];
    assert s.stdout == done + more;
    Lines.SplitResumes(done, more);
    UpToIs(c, s);
    PrefixKept(Lines.Split(done).lines, Lines.Split(s.stdout).lines);
    hide StripAll, LossyAll;
    Glue(StripAll(LossyAll(Lines.Split(done).lines)), StripAll(LossyAll(Lines.Split(s.stdout).lines)),
         TextLines(Utf8.Lossy(s.stdout)));
  }

  lemma Glue(before: seq<string>, after: seq<string>, all: seq<string>)
    requires before <= after && |after| <= |all| && all[..|after|] == after
    ensures before + all[|before|..|after|] == after && before + all[|before|..|all|] == all
  {
  }

  lemma DrainInStep(c: Counter, lines: seq<string>, was: Sight, s: Sight)
    requires InStep(c, lines, was) && Follows(was, s)
    ensures InStep(Next(c, s), lines + NewText(c, s), s)
    ensures c.completed == was.exit.Some?
  {
    hide Lines.Split, TextLines, Utf8.Lossy, StripReturn, UpTo, From;
    if was.exit == None {
      NewTextIs(c, was.stdout, s);
      hide NewText;
    } else {
      assert NewText(c, s) == [];
      assert lines + [] == lines;
    }
  }

  function EndOf(sights: seq<Sight>): seq<Event> {
    if sights == [] then []
    else
      var n := |sights| - 1;
      if EndOf(sights[..n]) == [] then Ending(Counter(None, 0, false), sights[n]) else EndOf(sights[..n])
  }

  lemma {:induction false} PlayInStep(summary: string, sights: seq<Sight>)
    requires sights != [] && Growing(sights)
    ensures InStep(Play(summary, sights).counter, Play(summary, sights).lines, sights[|sights| - 1])
    ensures Play(summary, sights).counter.pending == None
    ensures Play(summary, sights).starts == [Started(summary)]
    ensures Play(summary, sights).ended == EndOf(sights)
    ensures EndOf(sights) == [] <==> sights[|sights| - 1].exit == None
  {
    hide InStep, NewText, Lines.Split, TextLines, UpTo, Utf8.Lossy;
    var n := |sights| - 1;
    var t := Play(summary, sights[..n]);
    if n == 0 {
      var none := Sight([], [], None);
      NothingYet(t.counter);
      DrainInStep(t.counter, [], none, sights[0]);
    } else {
      PlayInStep(summary, sights[..n]);
      assert sights[..n][n - 1] == sights[n - 1] && Follows(sights[n - 1], sights[n]);
      DrainInStep(t.counter, t.lines, sights[n - 1], sights[n]);
    }
  }

  lemma NothingYet(c: Counter)
    requires c.emitted == 0 && !c.completed
    ensures InStep(c, [], Sight([], [], None))
  {
  }

  /** Everything the drains report, in order. */
  function Reported(summary: string, sights: seq<Sight>): seq<Event> {
    if sights == [] then []
    else
      var n := |sights| - 1;
      var c := Play(summary, sights[..n]).counter;
      Reported(summary, sights[..n]) + (Opening(c) + LineEvents(NewText(c, sights[n])) + Ending(c, sights[n]))
  }

  lemma LineEventsConcat(a: seq<string>, b: seq<string>)
    ensures LineEvents(a + b) == LineEvents(a) + LineEvents(b)
  {
  }

  lemma Regroup(before: seq<Event>, starts: seq<Event>, lines: seq<Event>, ended: seq<Event>,
                newStarts: seq<Event>, newLines: seq<Event>, newEnd: seq<Event>)
    requires before == starts + lines + ended
    requires newStarts == [] || lines + ended == []
    requires ended == [] || newLines + newEnd == []
    ensures before + (newStarts + newLines + newEnd) == (starts + newStarts) + (lines + newLines) + (ended + newEnd)
  {
    if ended != [] {
      assert newLines == [] && newEnd == [];
    } else if newStarts != [] {
      assert lines == [];
    }
  }

  /** Start, lines and end come in this order, however many drains it takes. */
  lemma {:induction false} ReportedIs(summary: string, sights: seq<Sight>)
    requires sights != [] && Growing(sights)
    ensures var t := Play(summary, sights); Reported(summary, sights) == t.starts + LineEvents(t.lines) + t.ended
  {
    hide InStep, NewText, Next, Ending, Opening, LineEvents;
    var n := |sights| - 1;
    var t, s := Play(summary, sights[..n]), sights[n];
    LineEventsConcat(t.lines, NewText(t.counter, s));
    NoLines();
    if n > 0 {
      PlayInStep(summary, sights[..n]);
      ReportedIs(summary, sights[..n]);
      assert sights[..n][n - 1] == sights[n - 1];
      QuietAfterEnd(t.counter, t.lines, sights[n - 1], s);
    }
    hide Play, EndOf;
    Regroup(Reported(summary, sights[..n]), t.starts, LineEvents(t.lines), t.ended,
            Opening(t.counter), LineEvents(NewText(t.counter, s)), Ending(t.counter, s));
    PlayStep(summary, sights);
  }

  lemma PlayStep(summary: string, sights: seq<Sight>)
    requires sights != []
    ensures var n := |sights| - 1;
            var t, u := Play(summary, sights[..n]), Play(summary, sights);
            u.starts == t.starts + Opening(t.counter) && u.lines == t.lines + NewText(t.counter, sights[n])
            && u.ended == t.ended + Ending(t.counter, sights[n])
  {
    hide Opening, NewText, Ending, Next;
  }

  lemma NoLines()
    ensures LineEvents([]) == []
  {
  }

  lemma QuietAfterEnd(c: Counter, lines: seq<string>, was: Sight, s: Sight)
    requires InStep(c, lines, was) && c.pending == None
    ensures was.exit.Some? ==> NewText(c, s) == [] && Ending(c, s) == []
    ensures Opening(c) == []
  {
    hide TextLines, UpTo, From;
  }

  lemma {:induction false} EndedByFirst(sights: seq<Sight>, n: nat)
    requires n < |sights| && sights[n].exit.Some? && forall i :: 0 <= i < n ==> sights[i].exit == None
    ensures EndOf(sights) == Ending(Counter(None, 0, false), sights[n])
  {
    var m := |sights| - 1;
    if m > n {
      EndedByFirst(sights[..m], n);
    } else {
      NotEnded(sights[..n]);
    }
  }

  lemma {:induction false} NotEnded(sights: seq<Sight>)
    requires forall i :: 0 <= i < |sights| ==> sights[i].exit == None
    ensures EndOf(sights) == []
  {
    if sights != [] { NotEnded(sights[..|sights| - 1]); }
  }

  /** Any chunking, any drain times: the start is reported once, then each stdout line exactly once and in order
      although only a count is kept, then, by the first drain that finds the child done, stderr as one error if there
      is any, and the exit code. */
  lemma {:induction false} EveryLineOnce(summary: string, sights: seq<Sight>, stdout: seq<Lines.Byte>, n: nat)
    requires sights != [] && Growing(sights) && sights[|sights| - 1].stdout == stdout
    requires n < |sights| && sights[n].exit.Some? && forall i :: 0 <= i < n ==> sights[i].exit == None
    ensures var lines := StripAll(LossyAll(Lines.Split(stdout).lines))
                         + (if Lines.Split(stdout).rest == [] then [] else [Utf8.Lossy(Lines.Split(stdout).rest)]);
            var s, k, all := sights[n], |lines|, Reported(summary, sights);
            |all| == k + (if s.stderr == [] then 2 else 3)
            && all[0] == Lines.ProviderEvent(CommandStarted, summary, None)
            && (forall i :: 0 <= i < k ==> all[1 + i] == Lines.ProviderEvent(EventType.Unspecified, lines[i], None))
            && (s.stderr != [] ==> all[k + 1] == Lines.ProviderEvent(ErrorOccurred, Utf8.Lossy(s.stderr), None))
            && all[|all| - 1] ==
                 Lines.ProviderEvent(CommandCompleted, "completed with exit code " + Decimal.Digits(s.exit.value), None)
  {
    hide Lines.Split, TextLines, Utf8.Lossy, StripReturn, EndOf, Reported, Play, Ending, LineEvents, StripAll, LossyAll;
    PlayInStep(summary, sights);
    ReportedIs(summary, sights);
    EndedByFirst(sights, n);
    StillDone(sights, n);
    LinesOfSink(stdout);
    var t := Play(summary, sights);
    assert t.lines == TextLines(Utf8.Lossy(stdout));
    hide *;
    ReportSpelled(summary, t.lines, sights[n], Reported(summary, sights));
  }

  /** A start, the lines, and an ending, place by place. */
  lemma ReportSpelled(summary: string, lines: seq<string>, s: Sight, all: seq<Event>)
    requires s.exit.Some? && all == [Started(summary)] + LineEvents(lines) + Ending(Counter(None, 0, false), s)
    ensures var k := |lines|;
            |all| == k + (if s.stderr == [] then 2 else 3)
            && all[0] == Lines.ProviderEvent(CommandStarted, summary, None)
            && (forall i :: 0 <= i < k ==> all[1 + i] == Lines.ProviderEvent(EventType.Unspecified, lines[i], None))
            && (s.stderr != [] ==> all[k + 1] == Lines.ProviderEvent(ErrorOccurred, Utf8.Lossy(s.stderr), None))
            && all[|all| - 1] ==
                 Lines.ProviderEvent(CommandCompleted, "completed with exit code " + Decimal.Digits(s.exit.value), None)
  {
    hide Utf8.Lossy, Decimal.Digits;
  }

  lemma {:induction false} StillDone(sights: seq<Sight>, n: nat)
    requires n < |sights| && sights[n].exit.Some? && Growing(sights)
    ensures sights[|sights| - 1].exit.Some?
  {
    var m := |sights| - 1;
    if m > n {
      StillDone(sights[..m], n);
      assert Follows(sights[m - 1], sights[m]);
    }
  }

  // --- a first finished drain that sees only part of the sink -------------------------------------

  /** Once a drain saw the child finished, no later one reports a line, whatever the sinks then hold. */
  lemma {:induction false} StoppedForGood(summary: string, sights: seq<Sight>, n: nat)
    requires n < |sights| && sights[n].exit.Some?
    ensures Play(summary, sights).lines == Play(summary, sights[..n + 1]).lines
            && Play(summary, sights).counter.completed
  {
    hide NewText, Next, Opening, Ending;
    var m := |sights| - 1;
    var t := Play(summary, sights[..m]);
    AfterTheEnd(t.counter, t.lines, sights[m]);
    if n == m {
      assert sights[..n + 1] == sights;
    } else {
      StoppedForGood(summary, sights[..m], n);
      assert sights[..m][..n + 1] == sights[..n + 1];
    }
  }

  lemma AfterTheEnd(c: Counter, lines: seq<string>, s: Sight)
    ensures c.completed ==> lines + NewText(c, s) == lines
    ensures c.completed || s.exit.Some? ==> Next(c, s).completed
  {
    hide TextLines, UpTo, From, Utf8.Lossy;
  }

  /** The late bytes leave the cut line's text as it was reported, at most ending it. */
  predicate Harmless(fragment: seq<Lines.Byte>, late: seq<Lines.Byte>) {
    late == []
    || (fragment != []
        && var x, t := Utf8.Lossy(fragment), Utf8.Lossy(fragment + late);
           t == x || t == x + "\r\n" || (t == x + "\n" && (x == "" || x[|x| - 1] != '\r')))
  }

  lemma {:induction false} NoLineIsRest(t: string)
    ensures SplitText(t).lines == [] ==> SplitText(t).rest == t && '\n' !in t
  {
    if t != "" {
      var n := |t| - 1;
      NoLineIsRest(t[..n]);
      assert t == t[..n] + [t[n]];
      if t[n] != '\n' && SplitText(t[..n]).lines == [] { assert forall i :: 0 <= i < n ==> t[i] == t[..n][i]; }
    }
  }

  /** Texts whose one line is `x`. */
  lemma OneLine(t: string, x: string)
    requires '\n' !in x && x != ""
    ensures TextLines(t) == [x] <==> t == x || t == x + "\r\n" || (t == x + "\n" && x[|x| - 1] != '\r')
  {
    if t == x {
      NoNewlineText(x);
    } else if t != "" && t[|t| - 1] == '\n' {
      EndedLine(t[..|t| - 1], x);
      assert t == t[..|t| - 1] + ['\n'];
    } else {
      NoLineIsRest(t);
      LastChar(t);
      UnendedLine(t, x);
    }
  }

  lemma NoFeedAtEnd(t: string, x: string)
    requires t != "" ==> t[|t| - 1] != '\n'
    ensures t != x + "\r\n" && t != x + "\n"
  {
    assert (x + "\r\n")[|x| + 1] == '\n' && (x + "\n")[|x|] == '\n';
  }

  lemma UnendedLine(t: string, x: string)
    requires t != x && (t != "" ==> t[|t| - 1] != '\n')
    requires SplitText(t).lines == [] ==> SplitText(t).rest == t
    requires SplitText(t).rest == "" <==> t == "" || t[|t| - 1] == '\n'
    ensures TextLines(t) != [x] && t != x + "\r\n" && t != x + "\n"
  {
    NoFeedAtEnd(t, x);
    NoText();
    hide *;
    if t != "" { TailLine(t); }
  }

  lemma NoText()
    ensures TextLines("") == []
  {
  }

  lemma TailLine(t: string)
    requires SplitText(t).rest != ""
    ensures |TextLines(t)| == |SplitText(t).lines| + 1 && TextLines(t)[|SplitText(t).lines|] == SplitText(t).rest
  {
    hide SplitText, StripReturn;
  }

  lemma EndedLine(y: string, x: string)
    requires '\n' !in x && x != ""
    ensures TextLines(y + ['\n']) == [x] <==> y == x + "\r" || (y == x && x[|x| - 1] != '\r')
  {
    assert (y + ['\n'])[..|y|] == y;
    var c := SplitText(y);
    assert SplitText(y + ['\n']) == TextCut(c.lines + [c.rest], "");
    NoLineIsRest(y);
    if y == x { NoNewlineText(x); }
    if y == x + "\r" { NoNewlineText(y); assert y[..|x|] == x; }
    hide SplitText;
    EndedLineText(y, x, c);
  }

  lemma EndedLineText(y: string, x: string, c: TextCut)
    requires SplitText(y + ['\n']) == TextCut(c.lines + [c.rest], "")
    requires c.lines == [] ==> c.rest == y
    requires y == x + "\r" || y == x ==> c == TextCut([], y)
    requires x != ""
    ensures TextLines(y + ['\n']) == [x] <==> y == x + "\r" || (y == x && x[|x| - 1] != '\r')
  {
    hide SplitText;
    var all := StripAll(c.lines + [c.rest]);
    assert TextLines(y + ['\n']) == all + [];
    assert |all| == |c.lines| + 1 && all[|c.lines|] == StripReturn(c.rest);
    if all == [x] {
      assert c.lines == [] && StripReturn(y) == x;
      if y != x { assert y == y[..|y| - 1] + "\r"; }
    }
    if y == x + "\r" { assert y[..|y| - 1] == x && all == [x]; }
    if y == x && x[|x| - 1] != '\r' { assert all == [x]; }
  }

  /** If that drain saw only the beginning of a stream, the lines reported are those of the whole exactly when the
      bytes it missed leave the cut line's text alone. */
  lemma {:induction false} EarlyFinishIff(summary: string, sights: seq<Sight>, n: nat, late: seq<Lines.Byte>)
    requires n < |sights| && sights[n].exit.Some? && Growing(sights[..n + 1])
    ensures var seen := sights[n].stdout;
            Play(summary, sights).lines == TextLines(Utf8.Lossy(seen + late)) <==>
              Harmless(Lines.Split(seen).rest, late)
  {
    var seen := sights[n].stdout;
    hide Play, Lines.Split, TextLines, Utf8.Lossy, Harmless;
    StoppedForGood(summary, sights, n);
    PlayInStep(summary, sights[..n + 1]);
    assert sights[..n + 1][n] == sights[n];
    HarmlessIff(seen, late);
  }

  lemma HarmlessIff(seen: seq<Lines.Byte>, late: seq<Lines.Byte>)
    ensures TextLines(Utf8.Lossy(seen)) == TextLines(Utf8.Lossy(seen + late))
            <==> Harmless(Lines.Split(seen).rest, late)
  {
    hide Lines.Split, TextLines, Utf8.Lossy, StripReturn;
    var c, r := Lines.Split(seen), Lines.Split(seen).rest;
    SinkResumes(seen, late);
    var head, tail := StripAll(LossyAll(c.lines)), TextLines(Utf8.Lossy(r + late));
    LinesOfSink(seen);
    assert TextLines(Utf8.Lossy(seen)) == TextLines(Utf8.Lossy(seen + late))
           <==> tail == (if r == [] then [] else [Utf8.Lossy(r)]) by {
      PrefixCancels(head, if r == [] then [] else [Utf8.Lossy(r)], tail);
    }
    if r == [] {
      assert r + late == late;
      NoLinesIff(late);
    } else {
      RestDecodes(seen);
      OneLine(Utf8.Lossy(r + late), Utf8.Lossy(r));
      if late == [] { assert r + late == r; }
    }
  }

  lemma PrefixCancels(h: seq<string>, a: seq<string>, b: seq<string>)
    ensures h + a == h + b <==> a == b
  {
    if h + a == h + b { assert (h + a)[|h|..] == a && (h + b)[|h|..] == b; }
  }

  lemma RestDecodes(seen: seq<Lines.Byte>)
    requires Lines.Split(seen).rest != []
    ensures '\n' !in Utf8.Lossy(Lines.Split(seen).rest) && Utf8.Lossy(Lines.Split(seen).rest) != ""
  {
    var a := LastNewline(seen);
    LossyNoNewline(Lines.Split(seen).rest);
    LossyEmpty(Lines.Split(seen).rest);
  }

  lemma NoLinesIff(b: seq<Lines.Byte>)
    ensures TextLines(Utf8.Lossy(b)) == [] <==> b == []
  {
    LinesOfSink(b);
    hide TextLines, Utf8.Lossy, StripReturn;
    NoLineNoRest(b);
  }

  lemma {:induction false} NoLineNoRest(b: seq<Lines.Byte>)
    ensures Lines.Split(b).lines == [] && Lines.Split(b).rest == [] <==> b == []
  {
    if b != [] { assert b == b[..|b| - 1] + [b[|b| - 1]]; }
  }

  /** The lines of a longer sink are the complete ones so far and those of the fragment with what follows. */
  lemma SinkResumes(seen: seq<Lines.Byte>, late: seq<Lines.Byte>)
    ensures TextLines(Utf8.Lossy(seen + late)) ==
              StripAll(LossyAll(Lines.Split(seen).lines)) + TextLines(Utf8.Lossy(Lines.Split(seen).rest + late))
  {
    hide Lines.Split, TextLines, Utf8.Lossy, StripReturn;
    var r := Lines.Split(seen).rest;
    Lines.SplitResumes(seen, late);
    LinesOfSink(seen + late);
    LinesOfSink(r + late);
    var a, b := Lines.Split(seen).lines, Lines.Split(r + late).lines;
    assert StripAll(LossyAll(a + b)) == StripAll(LossyAll(a)) + StripAll(LossyAll(b));
  }
}

/** Incremental line assembly in the marker adapters: a capped sink per stream, drains that see growing snapshots of
    both sinks, and the marker grammar under a provider prefix. */
module Lines {
  import opened EventTypes
  import opened Prelude
  import Decimal
  import opened Strings
  import Utf8

  type Byte = Utf8.Byte

  const NEWLINE: Byte := 10

  // --- the capped sink --------------------------------------------------------------------------

  function Joined(chunks: seq<seq<Byte>>): seq<Byte> {
    if chunks == [] then [] else Joined(chunks[..|chunks| - 1]) + chunks[|chunks| - 1]
  }

  function FirstBytes(s: seq<Byte>, n: nat): seq<Byte> { if |s| <= n then s else s[..n] }

  class CappedSink {
    var buf: seq<Byte>
    const cap: nat
    var truncated: bool
    /** All chunks ever pushed. */
    ghost var pushed: seq<seq<Byte>>

    /** However the stream was cut into chunks, the sink holds its first `cap` bytes, and knows if there were more. */
    ghost predicate Valid()
      reads this
    {
      buf == FirstBytes(Joined(pushed), cap) && (truncated <==> |Joined(pushed)| > cap)
    }

    constructor (cap: nat)
      ensures Valid() && this.cap == cap && pushed == []
    {
      this.cap := cap;
      buf, truncated, pushed := [], false, [];
    }

    method Push(chunk: seq<Byte>)
      requires Valid()
      modifies this
      ensures Valid() && pushed == old(pushed) + [chunk]
      ensures old(buf) <= buf
    {
      var room := if |buf| < cap then cap - |buf| else 0;
      var keep := if room < |chunk| then room else |chunk|;
      ghost var all := Joined(pushed);
      assert (pushed + [chunk])[..|pushed|] == pushed;
      buf := buf + chunk[..keep];
      if keep < |chunk| { truncated := true; }
      pushed := pushed + [chunk];
      assert buf == FirstBytes(all + chunk, cap);
    }
  }

  // --- lines ------------------------------------------------------------------------------------

  /** Complete lines without their line feeds, and what follows the last one. */
  datatype Cut = Cut(lines: seq<seq<Byte>>, rest: seq<Byte>)

  function Split(b: seq<Byte>): (c: Cut)
    ensures c.lines == [] ==> c.rest == b
  {
    if b == [] then Cut([], [])
    else
      var n := |b| - 1;
      var c := Split(b[..n]);
      assert b == b[..n] + [b[n]];
      if b[n] == NEWLINE then Cut(c.lines + [c.rest], []) else Cut(c.lines, c.rest + [b[n]])
  }

  /** Every line of a finished stream: the complete ones and a non-empty remainder. */
  function AllLines(b: seq<Byte>): seq<seq<Byte>> {
    Split(b).lines + if Split(b).rest == [] then [] else [Split(b).rest]
  }

  /** Splitting may stop anywhere: the remainder carries over. */
  lemma {:induction false} SplitResumes(a: seq<Byte>, b: seq<Byte>)
    ensures Split(a + b) == Cut(Split(a).lines + Split(Split(a).rest + b).lines, Split(Split(a).rest + b).rest)
  {
    if b == [] {
      assert a + b == a && Split(a).rest + b == Split(a).rest;
      RestHasNoLine(a);
    } else {
      var n := |b| - 1;
      SplitResumes(a, b[..n]);
      var r := Split(a).rest;
      assert (a + b)[..|a + b| - 1] == a + b[..n];
      assert (r + b)[..|r + b| - 1] == r + b[..n];
    }
  }

  lemma {:induction false} RestHasNoLine(a: seq<Byte>)
    ensures Split(Split(a).rest) == Cut([], Split(a).rest)
  {
    if a != [] {
      var n := |a| - 1;
      RestHasNoLine(a[..n]);
      if a[n] != NEWLINE {
        var r := Split(a[..n]).rest;
        assert (r + [a[n]])[..|r|] == r;
      }
    }
  }

  /** Flushing a remainder and then reading on gives the lines of the whole stream exactly when nothing follows or
      nothing was cut. */
  lemma LateBytes(a: seq<Byte>, b: seq<Byte>)
    ensures AllLines(a) + AllLines(b) == AllLines(a + b) <==> b == [] || Split(a).rest == []
  {
    var r := Split(a).rest;
    SplitResumes(a, b);
    if b == [] {
      assert a + b == a;
    } else if r == [] {
      assert r + b == b;
    } else {
      RestHasNoLine(a);
      FlushedLength(r, b);
    }
  }

  /** Cutting inside a line makes one line more. */
  lemma {:induction false} FlushedLength(r: seq<Byte>, b: seq<Byte>)
    requires r != [] && b != [] && Split(r) == Cut([], r)
    ensures |AllLines(r + b)| == |AllLines(b)|
  {
    SplitResumes(r, b);
    var n := |b| - 1;
    assert (r + b)[..|r + b| - 1] == r + b[..n];
    if n == 0 {
      assert b[..0] == [] && r + b[..0] == r;
      assert Split([]) == Cut([], []);
    } else {
      SplitShift(r, b[..n]);
    }
  }

  lemma {:induction false} SplitShift(r: seq<Byte>, b: seq<Byte>)
    requires r != [] && Split(r) == Cut([], r)
    ensures |Split(r + b).lines| == |Split(b).lines|
    ensures Split(r + b).rest == if Split(b).lines == [] then r + b else Split(b).rest
  {
    if b == [] {
      assert r + b == r;
    } else {
      var n := |b| - 1;
      assert (r + b)[..|r + b| - 1] == r + b[..n];
      SplitShift(r, b[..n]);
    }
  }

  // --- the grammar ------------------------------------------------------------------------------

  datatype ProviderEvent = ProviderEvent(eventType: EventType, summary: string, detail: Option<string>)

  function Plain(t: EventType, summary: string): ProviderEvent { ProviderEvent(t, summary, None) }

  /** What one line does: at most one event, or a new session id. */
  datatype Effect = Effect(events: seq<ProviderEvent>, session: Option<string>)

  const NOTHING := Effect([], None)

  function FindSpace(s: string): (i: Option<nat>)
    ensures i.Some? ==> i.value < |s| && s[i.value] == ' ' && ' ' !in s[..i.value]
    ensures i == None ==> ' ' !in s
  {
    if s == "" then None
    else if s[0] == ' ' then Some(0)
    else match FindSpace(s[1..])
      case None => None
      case Some(i) => assert s[..i + 1] == [s[0]] + s[1..][..i]; Some(i + 1)
  }

  /** A word and the trimmed text after the first space. */
  function WordAndRest(s: string): (string, string) {
    match FindSpace(s)
    case None => (s, "")
    case Some(i) => (s[..i], TrimStart(s[i + 1..]))
  }

  function FirstWord(s: string): (w: string)
    ensures |w| <= |s|
  {
    if s == "" || IsWhite(s[0]) then "" else [s[0]] + FirstWord(s[1..])
  }

  function FileMeaning(payload: string): Effect {
    var word := FirstWord(TrimStart(payload));
    Effect([ProviderEvent(FileChanged, payload, if word == "" then None else Some(word))], None)
  }

  function ApprovalMeaning(payload: string): Effect {
    var (id, summary) := WordAndRest(payload);
    Effect([ProviderEvent(ApprovalRequired, summary, if id == "" then None else Some(id))], None)
  }

  function ExitMeaning(payload: string): Effect {
    var (status, summary) := WordAndRest(payload);
    if status == "ok" then Effect([Plain(WorkflowCompleted, summary)], None)
    else if status == "fail" then Effect([Plain(ErrorOccurred, summary)], None)
    else NOTHING
  }

  function SessionMeaning(payload: string): Effect {
    var id := Trim(payload);
    Effect([], if id == "" then None else Some(id))
  }

  function Meaning(verb: string, payload: string): (r: Effect)
    ensures |r.events| <= 1
    ensures r.session.Some? ==> r.events == [] && r.session.value != ""
  {
    match verb
    case "START" => Effect([Plain(AgentStarted, payload)], None)
    case "STEP" => Effect([Plain(CommandStarted, payload)], None)
    case "DONE" => Effect([Plain(CommandCompleted, payload)], None)
    case "FILE" => FileMeaning(payload)
    case "APPROVAL" => ApprovalMeaning(payload)
    case "INPUT" => Effect([Plain(InputRequired, payload)], None)
    case "ERROR" => Effect([Plain(ErrorOccurred, payload)], None)
    case "EXIT" => ExitMeaning(payload)
    case "SESSION" => SessionMeaning(payload)
    case _ => NOTHING
  }

  function ParseLine(prefix: string, line: string): (r: Effect)
    ensures |r.events| <= 1
  {
    if prefix <= line then
      var (verb, payload) := WordAndRest(line[|prefix|..]);
      Meaning(verb, payload)
    else NOTHING
  }

  lemma FindFirstSpace(verb: string, rest: string)
    requires ' ' !in verb
    ensures FindSpace(verb + " " + rest) == Some(|verb|)
  {
    var s := verb + " " + rest;
    assert s[|verb|] == ' ';
    var i := FindSpace(s).value;
    assert forall k :: 0 <= k < |verb| ==> s[k] == verb[k] && s[k] != ' ';
    assert forall k :: 0 <= k < i ==> s[..i][k] == s[k] && s[k] != ' ';
  }

  lemma WordsOf(verb: string, payload: string)
    requires ' ' !in verb
    ensures WordAndRest(verb + " " + payload) == (verb, TrimStart(payload)) && WordAndRest(verb) == (verb, "")
  {
    FindFirstSpace(verb, payload);
    var s := verb + " " + payload;
    assert s[..|verb|] == verb && s[|verb| + 1..] == payload;
  }

  /** A word, one space, and more text. */
  function Spaced(word: string, text: string): string { word + " " + text }

  /** The grammar as documented: a prefix, a verb without spaces, and a payload whose leading blanks do not matter;
      a line without the prefix means nothing. */
  lemma {:induction false} GrammarOf(prefix: string, verb: string, payload: string, other: string)
    requires ' ' !in verb
    ensures ParseLine(prefix, prefix + Spaced(verb, payload)) == Meaning(verb, TrimStart(payload))
    ensures ParseLine(prefix, prefix + verb) == Meaning(verb, "")
    ensures !(prefix <= other) ==> ParseLine(prefix, other) == NOTHING
  {
    hide Meaning, WordAndRest;
    WordsOf(verb, payload);
    assert (prefix + Spaced(verb, payload))[|prefix|..] == verb + " " + payload;
    assert (prefix + verb)[|prefix|..] == verb;
  }

  predicate Word(w: string) { w != "" && forall i :: 0 <= i < |w| ==> !IsWhite(w[i]) }

  lemma {:induction false} FirstWordIs(w: string, rest: string)
    requires (forall i :: 0 <= i < |w| ==> !IsWhite(w[i])) && (rest == "" || IsWhite(rest[0]))
    ensures FirstWord(w + rest) == w
  {
    if w == "" {
      assert w + rest == rest;
    } else {
      assert (w + rest)[1..] == w[1..] + rest;
      FirstWordIs(w[1..], rest);
    }
  }

  lemma WordIs(w: string)
    requires Word(w)
    ensures ' ' !in w && TrimStart(w) == w && TrimEnd(w) == w
  {
  }

  lemma WordPayload(w: string, text: string)
    requires Word(w)
    ensures TrimStart(Spaced(w, text)) == Spaced(w, text)
    ensures WordAndRest(Spaced(w, text)) == (w, TrimStart(text)) && FirstWord(Spaced(w, text)) == w
  {
    WordIs(w);
    assert Spaced(w, text)[0] == w[0];
    assert Spaced(w, text) == w + (" " + text);
    FirstWordIs(w, " " + text);
    assert TrimStart(Spaced(w, text)) == Spaced(w, text);
    hide TrimStart, WordAndRest;
    WordsOf(w, text);
  }

  lemma VerbTable(payload: string)
    ensures Meaning("START", payload) == Effect([Plain(AgentStarted, payload)], None)
    ensures Meaning("STEP", payload) == Effect([Plain(CommandStarted, payload)], None)
    ensures Meaning("DONE", payload) == Effect([Plain(CommandCompleted, payload)], None)
    ensures Meaning("INPUT", payload) == Effect([Plain(InputRequired, payload)], None)
    ensures Meaning("ERROR", payload) == Effect([Plain(ErrorOccurred, payload)], None)
    ensures Meaning("FILE", payload) == FileMeaning(payload) && Meaning("APPROVAL", payload) == ApprovalMeaning(payload)
    ensures Meaning("EXIT", payload) == ExitMeaning(payload) && Meaning("SESSION", payload) == SessionMeaning(payload)
  {
    hide FileMeaning, ApprovalMeaning, ExitMeaning, SessionMeaning;
  }

  lemma WordVerbs(w: string, text: string)
    requires Word(w)
    ensures SessionMeaning(w) == Effect([], Some(w))
    ensures FileMeaning(Spaced(w, text)) == Effect([ProviderEvent(FileChanged, Spaced(w, text), Some(w))], None)
    ensures ApprovalMeaning(Spaced(w, text)) ==
            Effect([ProviderEvent(ApprovalRequired, TrimStart(text), Some(w))], None)
    ensures ExitMeaning(Spaced(w, text)) ==
              if w == "ok" then Effect([Plain(WorkflowCompleted, TrimStart(text))], None)
              else if w == "fail" then Effect([Plain(ErrorOccurred, TrimStart(text))], None)
              else NOTHING
  {
    WordIs(w);
    WordPayload(w, text);
    assert w != "";
    hide Spaced, Word, TrimStart, TrimEnd, WordAndRest, FirstWord;
  }

  /** The documented marker lines, one by one: `w` is a word, `text` anything. */
  lemma {:induction false} DocumentedGrammar(prefix: string, w: string, text: string)
    requires Word(w)
    ensures ParseLine(prefix, prefix + Spaced("START", text)) == Effect([Plain(AgentStarted, TrimStart(text))], None)
    ensures ParseLine(prefix, prefix + Spaced("STEP", text)) == Effect([Plain(CommandStarted, TrimStart(text))], None)
    ensures ParseLine(prefix, prefix + Spaced("DONE", text)) == Effect([Plain(CommandCompleted, TrimStart(text))], None)
    ensures ParseLine(prefix, prefix + Spaced("INPUT", text)) == Effect([Plain(InputRequired, TrimStart(text))], None)
    ensures ParseLine(prefix, prefix + Spaced("ERROR", text)) == Effect([Plain(ErrorOccurred, TrimStart(text))], None)
    ensures ParseLine(prefix, prefix + Spaced("SESSION", w)) == Effect([], Some(w))
    ensures ParseLine(prefix, prefix + Spaced("FILE", Spaced(w, text))) ==
              Effect([ProviderEvent(FileChanged, Spaced(w, text), Some(w))], None)
    ensures ParseLine(prefix, prefix + Spaced("APPROVAL", Spaced(w, text))) ==
              Effect([ProviderEvent(ApprovalRequired, TrimStart(text), Some(w))], None)
    ensures ParseLine(prefix, prefix + Spaced("EXIT", Spaced(w, text))) ==
              if w == "ok" then Effect([Plain(WorkflowCompleted, TrimStart(text))], None)
              else if w == "fail" then Effect([Plain(ErrorOccurred, TrimStart(text))], None)
              else NOTHING
  {
    WordIs(w);
    WordPayload(w, text);
    WordVerbs(w, text);
    hide *;
    VerbTable(TrimStart(text));
    VerbTable(w);
    VerbTable(Spaced(w, text));
    MarkerLines(prefix, text);
    MarkerLines(prefix, w);
    MarkerLines(prefix, Spaced(w, text));
  }

  lemma MarkerLines(prefix: string, payload: string)
    ensures ParseLine(prefix, prefix + Spaced("START", payload)) == Meaning("START", TrimStart(payload))
    ensures ParseLine(prefix, prefix + Spaced("STEP", payload)) == Meaning("STEP", TrimStart(payload))
    ensures ParseLine(prefix, prefix + Spaced("DONE", payload)) == Meaning("DONE", TrimStart(payload))
    ensures ParseLine(prefix, prefix + Spaced("INPUT", payload)) == Meaning("INPUT", TrimStart(payload))
    ensures ParseLine(prefix, prefix + Spaced("ERROR", payload)) == Meaning("ERROR", TrimStart(payload))
    ensures ParseLine(prefix, prefix + Spaced("SESSION", payload)) == Meaning("SESSION", TrimStart(payload))
    ensures ParseLine(prefix, prefix + Spaced("FILE", payload)) == Meaning("FILE", TrimStart(payload))
    ensures ParseLine(prefix, prefix + Spaced("APPROVAL", payload)) == Meaning("APPROVAL", TrimStart(payload))
    ensures ParseLine(prefix, prefix + Spaced("EXIT", payload)) == Meaning("EXIT", TrimStart(payload))
  {
    hide *;
    GrammarOf(prefix, "START", payload, prefix);
    GrammarOf(prefix, "STEP", payload, prefix);
    GrammarOf(prefix, "DONE", payload, prefix);
    GrammarOf(prefix, "INPUT", payload, prefix);
    GrammarOf(prefix, "ERROR", payload, prefix);
    GrammarOf(prefix, "SESSION", payload, prefix);
    GrammarOf(prefix, "FILE", payload, prefix);
    GrammarOf(prefix, "APPROVAL", payload, prefix);
    GrammarOf(prefix, "EXIT", payload, prefix);
  }

  function TrimReturns(s: string): string {
    if s != "" && s[|s| - 1] == '\r' then TrimReturns(s[..|s| - 1]) else s
  }

  function EffectOf(prefix: string, raw: seq<Byte>): Effect { ParseLine(prefix, TrimReturns(Utf8.Lossy(raw))) }

  /** Carriage crs at the end of a line, however many, are not part of it, and no other character goes. */
  lemma {:induction false} ReturnsDoNotMatter(s: string, crs: string)
    requires s == "" || s[|s| - 1] != '\r'
    requires forall i :: 0 <= i < |crs| ==> crs[i] == '\r'
    ensures TrimReturns(s + crs) == s
  {
    if crs == "" {
      assert s + crs == s;
    } else {
      var n := |crs| - 1;
      assert (s + crs)[..|s + crs| - 1] == s + crs[..n];
      ReturnsDoNotMatter(s, crs[..n]);
    }
  }

  /** So a raw line whose text is a documented line, with or without carriage crs, has the documented effect. */
  lemma LineEndsDoNotMatter(prefix: string, raw: seq<Byte>, line: string, crs: string)
    requires Utf8.Lossy(raw) == line + crs
    requires line == "" || line[|line| - 1] != '\r'
    requires forall i :: 0 <= i < |crs| ==> crs[i] == '\r'
    ensures EffectOf(prefix, raw) == ParseLine(prefix, line)
  {
    ReturnsDoNotMatter(line, crs);
  }

  /** The events of a list of lines, in order. */
  function Events(prefix: string, raws: seq<seq<Byte>>): seq<ProviderEvent> {
    if raws == [] then []
    else var n := |raws| - 1; Events(prefix, raws[..n]) + EffectOf(prefix, raws[n]).events
  }

  /** The session after a list of lines: the last marker wins. */
  function Session(prefix: string, raws: seq<seq<Byte>>, before: Option<string>): Option<string> {
    if raws == [] then before
    else
      var n := |raws| - 1;
      var s := EffectOf(prefix, raws[n]).session;
      if s.Some? then s else Session(prefix, raws[..n], before)
  }

  lemma {:induction false} EventsConcat(prefix: string, a: seq<seq<Byte>>, b: seq<seq<Byte>>)
    ensures Events(prefix, a + b) == Events(prefix, a) + Events(prefix, b)
  {
    hide EffectOf;
    if b == [] {
      assert a + b == a;
    } else {
      var n := |b| - 1;
      assert (a + b)[..|a + b| - 1] == a + b[..n];
      EventsConcat(prefix, a, b[..n]);
    }
  }

  lemma {:induction false} SessionConcat(prefix: string, a: seq<seq<Byte>>, b: seq<seq<Byte>>, before: Option<string>)
    ensures Session(prefix, a + b, before) == Session(prefix, b, Session(prefix, a, before))
  {
    hide EffectOf;
    if b == [] {
      assert a + b == a;
    } else {
      var n := |b| - 1;
      assert (a + b)[..|a + b| - 1] == a + b[..n];
      SessionConcat(prefix, a, b[..n], before);
    }
  }

  lemma {:induction false} SessionFrom(prefix: string, raws: seq<seq<Byte>>, before: Option<string>)
    ensures Session(prefix, raws, before) ==
              if Session(prefix, raws, None).Some? then Session(prefix, raws, None) else before
  {
    hide EffectOf;
    if raws != [] { SessionFrom(prefix, raws[..|raws| - 1], before); }
  }

  // --- one stream -------------------------------------------------------------------------------

  /** How far a stream has been read, and the unterminated fragment held back. */
  datatype Stream = Stream(cursor: nat, tail: seq<Byte>)

  function Unread(s: Stream, bytes: seq<Byte>): seq<Byte> {
    s.tail + bytes[if s.cursor < |bytes| then s.cursor else |bytes|..]
  }

  function NewLines(s: Stream, bytes: seq<Byte>, finished: bool): seq<seq<Byte>> {
    if finished then AllLines(Unread(s, bytes)) else Split(Unread(s, bytes)).lines
  }

  function Advance(s: Stream, bytes: seq<Byte>, finished: bool): Stream {
    Stream(|bytes|, if finished then [] else Split(Unread(s, bytes)).rest)
  }

  // --- one drain --------------------------------------------------------------------------------

  /** What a drain sees: both sinks, the exit code if the child is done, and whether a stop was asked for before. */
  datatype Snap = Snap(stdout: seq<Byte>, stderr: seq<Byte>, exit: Option<nat>, stopped: bool)

  datatype State = State(out: Stream, err: Stream, session: Option<string>, terminalEmitted: bool)

  const FRESH := State(Stream(0, []), Stream(0, []), None, false)

  function ExitText(code: nat): string { "exit " + Decimal.Digits(code) }

  function Terminal(snap: Snap): seq<ProviderEvent> {
    if snap.exit == None then []
    else if snap.stopped then [Plain(WorkflowStopped, "stopped")]
    else if snap.exit.value == 0 then [Plain(WorkflowCompleted, "exit 0")]
    else [Plain(ErrorOccurred, ExitText(snap.exit.value))]
  }

  /** How a drain that finds the child done says so: stopped if that was asked for, else completed for code 0, else an
      error with the code. */
  predicate Ends(e: ProviderEvent, snap: Snap)
    requires snap.exit.Some?
  {
    e.detail == None
    && (snap.stopped ==> e.eventType == WorkflowStopped && e.summary == "stopped")
    && (!snap.stopped && snap.exit.value == 0 ==> e.eventType == WorkflowCompleted && e.summary == "exit 0")
    && (!snap.stopped && snap.exit.value != 0 ==>
          e.eventType == ErrorOccurred && e.summary == "exit " + Decimal.IntText(snap.exit.value))
  }

  lemma TerminalEnds(snap: Snap)
    ensures snap.exit.Some? ==> |Terminal(snap)| == 1 && Ends(Terminal(snap)[0], snap)
  {
  }

  function OutLines(s: State, snap: Snap): seq<seq<Byte>> { NewLines(s.out, snap.stdout, snap.exit.Some?) }

  function ErrLines(s: State, snap: Snap): seq<seq<Byte>> { NewLines(s.err, snap.stderr, snap.exit.Some?) }

  function Closing(s: State, snap: Snap): seq<ProviderEvent> { if s.terminalEmitted then [] else Terminal(snap) }

  function DrainState(prefix: string, s: State, snap: Snap): State {
    State(Advance(s.out, snap.stdout, snap.exit.Some?), Advance(s.err, snap.stderr, snap.exit.Some?),
          Session(prefix, ErrLines(s, snap), Session(prefix, OutLines(s, snap), s.session)),
          s.terminalEmitted || snap.exit.Some?)
  }

  function DrainEvents(prefix: string, s: State, snap: Snap): seq<ProviderEvent> {
    Events(prefix, OutLines(s, snap)) + Events(prefix, ErrLines(s, snap)) + Closing(s, snap)
  }

  class Adapter {
    const prefix: string
    var stdoutCursor: nat
    var stderrCursor: nat
    var stdoutTail: seq<Byte>
    var stderrTail: seq<Byte>
    var session: Option<string>
    var terminalEmitted: bool

    function Contents(): State
      reads this
    {
      State(Stream(stdoutCursor, stdoutTail), Stream(stderrCursor, stderrTail), session, terminalEmitted)
    }

    constructor (prefix: string)
      ensures this.prefix == prefix && Contents() == FRESH
    {
      this.prefix := prefix;
      stdoutCursor, stderrCursor, stdoutTail, stderrTail, session, terminalEmitted := 0, 0, [], [], None, false;
    }

    /** `drain` on a running or finished child. */
    method Drain(snap: Snap) returns (events: seq<ProviderEvent>)
      modifies this
      ensures Contents() == DrainState(prefix, old(Contents()), snap)
      ensures events == DrainEvents(prefix, old(Contents()), snap)
      ensures snap.exit.Some? && !old(terminalEmitted) ==> events != [] && Ends(events[|events| - 1], snap)
    {
      TerminalEnds(snap);
      hide Split, AllLines, Events, Session, Ends;
      var finished := snap.exit.Some?;
      stdoutCursor, stdoutTail, events, session :=
        Consume(prefix, snap.stdout, stdoutCursor, stdoutTail, finished, [], session);
      stderrCursor, stderrTail, events, session :=
        Consume(prefix, snap.stderr, stderrCursor, stderrTail, finished, events, session);
      if finished && !terminalEmitted {
        terminalEmitted := true;
        if snap.stopped {
          events := events + [Plain(WorkflowStopped, "stopped")];
        } else if snap.exit.value == 0 {
          events := events + [Plain(WorkflowCompleted, "exit 0")];
        } else {
          events := events + [Plain(ErrorOccurred, ExitText(snap.exit.value))];
        }
      }
    }
  }

  /** The byte loop: cut the held-back tail and the new bytes at line feeds, keep or flush the fragment, and feed the
      lines through the grammar. */
  method Consume(prefix: string, bytes: seq<Byte>, cursor: nat, tail: seq<Byte>, finished: bool,
                 events: seq<ProviderEvent>, session: Option<string>)
      returns (cursor': nat, tail': seq<Byte>, events': seq<ProviderEvent>, session': Option<string>)
    ensures Stream(cursor', tail') == Advance(Stream(cursor, tail), bytes, finished)
    ensures events' == events + Events(prefix, NewLines(Stream(cursor, tail), bytes, finished))
    ensures session' == Session(prefix, NewLines(Stream(cursor, tail), bytes, finished), session)
  {
    hide Events, Session, Split;
    var start := if cursor < |bytes| then cursor else |bytes|;
    var all := tail + bytes[start..];
    cursor' := |bytes|;
    var lines, last := CutLines(all);
    if finished {
      if last < |all| { lines := lines + [all[last..]]; }
      tail' := [];
    } else {
      tail' := all[last..];
    }
    assert lines == NewLines(Stream(cursor, tail), bytes, finished);
    events', session' := Feed(prefix, lines, events, session);
  }

  lemma SplitSnoc(s: seq<Byte>, b: Byte)
    ensures Split(s + [b]) ==
            if b == NEWLINE then Cut(Split(s).lines + [Split(s).rest], [])
            else Cut(Split(s).lines, Split(s).rest + [b])
  {
    assert (s + [b])[..|s|] == s;
  }

  lemma NextByte(all: seq<Byte>, last: nat, i: nat)
    requires last <= i < |all|
    ensures all[..i + 1] == all[..i] + [all[i]] && all[last..i + 1] == all[last..i] + [all[i]]
    ensures all[i + 1..i + 1] == []
  {
  }

  lemma CutStep(all: seq<Byte>, last: nat, i: nat, lines: seq<seq<Byte>>)
    requires last <= i < |all| && Split(all[..i]) == Cut(lines, all[last..i])
    ensures Split(all[..i + 1]) ==
              if all[i] == NEWLINE then Cut(lines + [all[last..i]], all[i + 1..i + 1]) else Cut(lines, all[last..i + 1])
  {
    NextByte(all, last, i);
    SplitSnoc(all[..i], all[i]);
    hide Split;
  }

  method CutLines(all: seq<Byte>) returns (lines: seq<seq<Byte>>, last: nat)
    ensures last <= |all| && Split(all) == Cut(lines, all[last..])
  {
    lines, last := [], 0;
    var i := 0;
    assert Split([]) == Cut([], []);
    hide Split;
    while i < |all|
      invariant 0 <= last <= i <= |all|
      invariant Split(all[..i]) == Cut(lines, all[last..i])
    {
      CutStep(all, last, i, lines);
      if all[i] == NEWLINE {
        lines := lines + [all[last..i]];
        last := i + 1;
      }
      i := i + 1;
    }
    assert all[..|all|] == all;
  }

  method Feed(prefix: string, lines: seq<seq<Byte>>, events: seq<ProviderEvent>, session: Option<string>)
      returns (events': seq<ProviderEvent>, session': Option<string>)
    ensures events' == events + Events(prefix, lines) && session' == Session(prefix, lines, session)
  {
    hide EffectOf;
    events', session' := events, session;
    assert lines[..0] == [];
    for i := 0 to |lines|
      invariant events' == events + Events(prefix, lines[..i]) && session' == Session(prefix, lines[..i], session)
    {
      assert lines[..i + 1][..i] == lines[..i];
      var effect := EffectOf(prefix, lines[i]);
      events' := events' + effect.events;
      if effect.session.Some? { session' := effect.session; }
    }
    assert lines[..|lines|] == lines;
  }

  // --- any schedule of drains -------------------------------------------------------------------

  /** What a series of drains produced: the state, each stream's lines, and the closing events. */
  datatype Trace = Trace(state: State, out: seq<seq<Byte>>, err: seq<seq<Byte>>, closing: seq<ProviderEvent>)

  function Play(prefix: string, snaps: seq<Snap>): Trace {
    if snaps == [] then Trace(FRESH, [], [], [])
    else
      var n := |snaps| - 1;
      var t, snap := Play(prefix, snaps[..n]), snaps[n];
      Trace(DrainState(prefix, t.state, snap), t.out + OutLines(t.state, snap), t.err + ErrLines(t.state, snap),
            t.closing + Closing(t.state, snap))
  }

  /** Sinks only grow, a finished child stays finished with its sinks, and a stop request stays made. */
  predicate Follows(a: Snap, b: Snap) {
    a.stdout <= b.stdout && a.stderr <= b.stderr && (a.stopped ==> b.stopped)
    && (a.exit.Some? ==> b.exit == a.exit && b.stdout == a.stdout && b.stderr == a.stderr)
  }

  ghost predicate Growing(snaps: seq<Snap>) { forall i :: 0 < i < |snaps| ==> Follows(snaps[i - 1], snaps[i]) }

  /** The first drain that finds the child finished, and every later one, sees both sinks full. */
  ghost predicate Schedule(snaps: seq<Snap>, stdout: seq<Byte>, stderr: seq<Byte>) {
    Growing(snaps) && snaps != [] && snaps[|snaps| - 1].exit.Some?
    && snaps[|snaps| - 1].stdout == stdout && snaps[|snaps| - 1].stderr == stderr
  }

  /** What the first drain of a finished child closes with. */
  function Closed(snaps: seq<Snap>): seq<ProviderEvent> {
    if snaps == [] then []
    else
      var before := Closed(snaps[..|snaps| - 1]);
      if before == [] then Terminal(snaps[|snaps| - 1]) else before
  }

  /** A stream that has seen `bytes`: all complete lines are out, the rest is held back; once finished, it is out
      too. */
  ghost predicate Caught(s: Stream, lines: seq<seq<Byte>>, bytes: seq<Byte>, finished: bool) {
    s.cursor == |bytes|
    && if finished then s.tail == [] && lines == AllLines(bytes)
       else s.tail == Split(bytes).rest && lines == Split(bytes).lines
  }

  lemma CatchUp(s: Stream, lines: seq<seq<Byte>>, seen: seq<Byte>, done: bool, bytes: seq<Byte>, finished: bool)
    requires Caught(s, lines, seen, done) && seen <= bytes && (done ==> finished && bytes == seen)
    ensures Caught(Advance(s, bytes, finished), lines + NewLines(s, bytes, finished), bytes, finished)
  {
    var more := bytes[|seen|..];
    assert bytes == seen + more;
    SplitResumes(seen, more);
    if done {
      assert Unread(s, bytes) == [];
    } else {
      assert Unread(s, bytes) == Split(seen).rest + more;
    }
  }

  ghost predicate InStep(t: Trace, snap: Snap) {
    Caught(t.state.out, t.out, snap.stdout, snap.exit.Some?) && Caught(t.state.err, t.err, snap.stderr, snap.exit.Some?)
    && t.state.terminalEmitted == snap.exit.Some?
  }

  lemma DrainInStep(prefix: string, t: Trace, was: Snap, snap: Snap)
    requires InStep(t, was) && Follows(was, snap)
    ensures InStep(Trace(DrainState(prefix, t.state, snap), t.out + OutLines(t.state, snap),
                         t.err + ErrLines(t.state, snap),
                         t.closing + Closing(t.state, snap)), snap)
  {
    hide Caught, Advance, NewLines, Session, Terminal;
    CatchUp(t.state.out, t.out, was.stdout, was.exit.Some?, snap.stdout, snap.exit.Some?);
    CatchUp(t.state.err, t.err, was.stderr, was.exit.Some?, snap.stderr, snap.exit.Some?);
  }

  const NONE_YET := Snap([], [], None, false)

  lemma NoneYetInStep(prefix: string)
    ensures InStep(Play(prefix, []), NONE_YET) && Play(prefix, []).state == FRESH
  {
  }

  lemma InStepFlag(t: Trace, snap: Snap)
    requires InStep(t, snap)
    ensures t.state.terminalEmitted == snap.exit.Some?
  {
  }

  lemma {:induction false} PlayInStep(prefix: string, snaps: seq<Snap>)
    requires snaps != [] && Growing(snaps)
    ensures InStep(Play(prefix, snaps), snaps[|snaps| - 1])
    ensures Play(prefix, snaps).closing == Closed(snaps)
    ensures |Closed(snaps)| == if snaps[|snaps| - 1].exit.Some? then 1 else 0
  {
    hide InStep, DrainState, OutLines, ErrLines;
    var n := |snaps| - 1;
    var t := Play(prefix, snaps[..n]);
    if n == 0 {
      NoneYetInStep(prefix);
      assert t.state.terminalEmitted == false;
      DrainInStep(prefix, t, NONE_YET, snaps[0]);
      assert Closed(snaps[..0]) == [];
    } else {
      PlayInStep(prefix, snaps[..n]);
      assert snaps[..n][n - 1] == snaps[n - 1] && Follows(snaps[n - 1], snaps[n]);
      DrainInStep(prefix, t, snaps[n - 1], snaps[n]);
      InStepFlag(t, snaps[n - 1]);
    }
  }

  /** What all the drains together said about one stream. */
  function OutEvents(prefix: string, snaps: seq<Snap>): seq<ProviderEvent> {
    if snaps == [] then []
    else
      var n := |snaps| - 1;
      OutEvents(prefix, snaps[..n]) + Events(prefix, OutLines(Play(prefix, snaps[..n]).state, snaps[n]))
  }

  function ErrEvents(prefix: string, snaps: seq<Snap>): seq<ProviderEvent> {
    if snaps == [] then []
    else
      var n := |snaps| - 1;
      ErrEvents(prefix, snaps[..n]) + Events(prefix, ErrLines(Play(prefix, snaps[..n]).state, snaps[n]))
  }

  lemma {:induction false} EventsOfLines(prefix: string, snaps: seq<Snap>)
    ensures OutEvents(prefix, snaps) == Events(prefix, Play(prefix, snaps).out)
    ensures ErrEvents(prefix, snaps) == Events(prefix, Play(prefix, snaps).err)
  {
    if snaps != [] {
      hide Events, OutLines, ErrLines, DrainState, Closing;
      var n := |snaps| - 1;
      EventsOfLines(prefix, snaps[..n]);
      var t := Play(prefix, snaps[..n]);
      EventsConcat(prefix, t.out, OutLines(t.state, snaps[n]));
      EventsConcat(prefix, t.err, ErrLines(t.state, snaps[n]));
    }
  }

  /** Any chunking, any drain times: each stream's lines and events are those of one parse of the whole sink, and
      exactly one closing event is emitted, by the first drain that finds the child finished. */
  lemma {:induction false} DrainsEqualOneParse(prefix: string, snaps: seq<Snap>, stdout: seq<Byte>, stderr: seq<Byte>)
    requires Schedule(snaps, stdout, stderr)
    ensures var t := Play(prefix, snaps);
            t.out == AllLines(stdout) && t.err == AllLines(stderr) && t.closing == Closed(snaps) && |t.closing| == 1
    ensures OutEvents(prefix, snaps) == Events(prefix, AllLines(stdout))
            && ErrEvents(prefix, snaps) == Events(prefix, AllLines(stderr))
  {
    hide Split, AllLines, Closed, Play, Events, OutEvents, ErrEvents;
    PlayInStep(prefix, snaps);
    EventsOfLines(prefix, snaps);
  }

  lemma {:induction false} ClosedByFirst(snaps: seq<Snap>, n: nat)
    requires n < |snaps| && snaps[n].exit.Some? && forall i :: 0 <= i < n ==> snaps[i].exit == None
    ensures Closed(snaps) == Terminal(snaps[n]) && |Terminal(snaps[n])| == 1
  {
    var m := |snaps| - 1;
    if m > n {
      ClosedByFirst(snaps[..m], n);
    } else {
      NotClosed(snaps[..n]);
    }
  }

  lemma {:induction false} NotClosed(snaps: seq<Snap>)
    requires forall i :: 0 <= i < |snaps| ==> snaps[i].exit == None
    ensures Closed(snaps) == []
  {
    if snaps != [] { NotClosed(snaps[..|snaps| - 1]); }
  }

  /** In every schedule the one closing event tells what the first drain that found the child done saw: whether a
      stop had been asked for, and the exit code. */
  lemma ClosingTells(prefix: string, snaps: seq<Snap>, stdout: seq<Byte>, stderr: seq<Byte>, n: nat)
    requires Schedule(snaps, stdout, stderr)
    requires n < |snaps| && snaps[n].exit.Some? && forall i :: 0 <= i < n ==> snaps[i].exit == None
    ensures var t, s := Play(prefix, snaps), snaps[n];
            t.closing == [if s.stopped then ProviderEvent(WorkflowStopped, "stopped", None)
                          else if s.exit.value == 0 then ProviderEvent(WorkflowCompleted, "exit 0", None)
                          else ProviderEvent(ErrorOccurred, "exit " + Decimal.IntText(s.exit.value), None)]
  {
    PlayInStep(prefix, snaps);
    hide Play, Closed;
    ClosedByFirst(snaps, n);
  }

  /** One drain of a child that is done reports stdout's events, then stderr's, then the closing one. */
  lemma OneDrainSays(prefix: string, snap: Snap)
    requires snap.exit.Some?
    ensures var all := DrainEvents(prefix, FRESH, snap);
            var lines := Events(prefix, AllLines(snap.stdout)) + Events(prefix, AllLines(snap.stderr));
            |all| == |lines| + 1 && all[..|lines|] == lines && Ends(all[|lines|], snap)
  {
    hide Split, AllLines, Events;
    var none: seq<Byte> := [];
    assert none + snap.stdout == snap.stdout && none + snap.stderr == snap.stderr;
  }

  // --- the session, which both streams write ------------------------------------------------------

  /** Session of a whole stream by itself. */
  function Last(prefix: string, bytes: seq<Byte>): Option<string> { Session(prefix, AllLines(bytes), None) }

  /** Session set by an unterminated last line. */
  function LastFragment(prefix: string, bytes: seq<Byte>): Option<string> {
    if Split(bytes).rest == [] then None else EffectOf(prefix, Split(bytes).rest).session
  }

  /** One drain over two complete sinks. */
  function OneParse(prefix: string, stdout: seq<Byte>, stderr: seq<Byte>): Option<string> {
    DrainState(prefix, FRESH, Snap(stdout, stderr, Some(0), false)).session
  }

  /** The streams agree on the session, or stderr's last word can only be heard at the end. */
  ghost predicate NoRace(prefix: string, stdout: seq<Byte>, stderr: seq<Byte>) {
    Last(prefix, stdout) == None || Last(prefix, stderr) == None || Last(prefix, stdout) == Last(prefix, stderr)
    || LastFragment(prefix, stderr).Some?
  }

  lemma OneParseIs(prefix: string, stdout: seq<Byte>, stderr: seq<Byte>)
    ensures OneParse(prefix, stdout, stderr) ==
              if Last(prefix, stderr).Some? then Last(prefix, stderr) else Last(prefix, stdout)
  {
    hide Session, AllLines;
    SessionFrom(prefix, AllLines(stderr), Last(prefix, stdout));
    var none: seq<Byte> := [];
    assert none + stdout == stdout && none + stderr == stderr;
  }

  lemma FragmentDecides(prefix: string, bytes: seq<Byte>, before: Option<string>)
    ensures LastFragment(prefix, bytes).Some? ==>
              Session(prefix, AllLines(bytes), before) == LastFragment(prefix, bytes)
              && Session(prefix, AllLines(Split(bytes).rest), before) == LastFragment(prefix, bytes)
    ensures LastFragment(prefix, bytes) == None ==>
              Session(prefix, AllLines(bytes), before) == Session(prefix, Split(bytes).lines, before)
              && Session(prefix, AllLines(Split(bytes).rest), before) == before
  {
    hide EffectOf, Split;
    RestHasNoLine(bytes);
    var lines, r := Split(bytes).lines, Split(bytes).rest;
    if r != [] {
      assert (lines + [r])[..|lines|] == lines;
      var none: seq<seq<Byte>> := [];
      assert [r][..0] == none && none + [r] == [r];
    } else {
      assert lines + [] == lines;
    }
  }

  /** Whatever the schedule, the session is one of the two streams' own. */
  ghost predicate OneOfTwo(session: Option<string>, so: Option<string>, se: Option<string>) {
    if so == None then session == se else if se == None then session == so else session == so || session == se
  }

  lemma DrainOneOfTwo(prefix: string, session: Option<string>, out: seq<seq<Byte>>, err: seq<seq<Byte>>,
                      moreOut: seq<seq<Byte>>, moreErr: seq<seq<Byte>>)
    requires OneOfTwo(session, Session(prefix, out, None), Session(prefix, err, None))
    ensures OneOfTwo(Session(prefix, moreErr, Session(prefix, moreOut, session)),
                     Session(prefix, out + moreOut, None), Session(prefix, err + moreErr, None))
  {
    hide Session;
    SessionConcat(prefix, out, moreOut, None);
    SessionConcat(prefix, err, moreErr, None);
    SessionFrom(prefix, moreOut, Session(prefix, out, None));
    SessionFrom(prefix, moreErr, Session(prefix, err, None));
    SessionFrom(prefix, moreOut, session);
    SessionFrom(prefix, moreErr, Session(prefix, moreOut, session));
  }

  lemma NoMarkers()
    ensures OneOfTwo(None, None, None)
  {
  }

  lemma {:induction false} PlayOneOfTwo(prefix: string, snaps: seq<Snap>)
    ensures var t := Play(prefix, snaps);
            OneOfTwo(t.state.session, Session(prefix, t.out, None), Session(prefix, t.err, None))
  {
    hide NewLines, Advance, EffectOf, OneOfTwo, Closing;
    if snaps == [] {
      NoMarkers();
    } else {
      var n := |snaps| - 1;
      PlayOneOfTwo(prefix, snaps[..n]);
      var t := Play(prefix, snaps[..n]);
      hide Session;
      DrainOneOfTwo(prefix, t.state.session, t.out, t.err, OutLines(t.state, snaps[n]), ErrLines(t.state, snaps[n]));
    }
  }

  lemma NothingLeft(t: Trace, snap: Snap, was: Snap)
    requires InStep(t, was) && Follows(was, snap) && was.exit.Some?
    ensures OutLines(t.state, snap) == [] && ErrLines(t.state, snap) == []
  {
  }

  lemma FinishingLines(prefix: string, t: Trace, snap: Snap, was: Snap, before: Option<string>)
    requires InStep(t, was) && Follows(was, snap) && was.exit == None && snap.exit.Some?
    ensures LastFragment(prefix, snap.stderr).Some? ==>
              Session(prefix, ErrLines(t.state, snap), before) == LastFragment(prefix, snap.stderr)
  {
    var more := snap.stderr[|was.stderr|..];
    assert snap.stderr == was.stderr + more;
    SplitResumes(was.stderr, more);
    var unread := Split(was.stderr).rest + more;
    assert Unread(t.state.err, snap.stderr) == unread;
    assert Split(unread).rest == Split(snap.stderr).rest;
    hide EffectOf, Split;
    FragmentDecides(prefix, unread, before);
  }

  lemma FragmentStays(prefix: string, t: Trace, was: Snap, snap: Snap)
    requires InStep(t, was) && Follows(was, snap) && snap.exit.Some? && LastFragment(prefix, snap.stderr).Some?
    requires was.exit.Some? ==> t.state.session == LastFragment(prefix, was.stderr)
    ensures DrainState(prefix, t.state, snap).session == LastFragment(prefix, snap.stderr)
  {
    hide LastFragment, InStep;
    if was.exit.Some? {
      NothingLeft(t, snap, was);
      hide OutLines, ErrLines;
    } else {
      hide Session, OutLines, ErrLines;
      FinishingLines(prefix, t, snap, was, Session(prefix, OutLines(t.state, snap), t.state.session));
    }
  }

  /** An unterminated marker on stderr is read at the first finished drain, after everything else, and stays. */
  lemma {:induction false} FragmentWins(prefix: string, snaps: seq<Snap>)
    requires snaps != [] && Growing(snaps) && snaps[|snaps| - 1].exit.Some?
    requires LastFragment(prefix, snaps[|snaps| - 1].stderr).Some?
    ensures Play(prefix, snaps).state.session == LastFragment(prefix, snaps[|snaps| - 1].stderr)
  {
    hide LastFragment, OutLines, ErrLines, InStep, DrainState;
    var n := |snaps| - 1;
    var t := Play(prefix, snaps[..n]);
    if n == 0 {
      NoneYetInStep(prefix);
      FragmentStays(prefix, t, NONE_YET, snaps[0]);
    } else {
      PlayInStep(prefix, snaps[..n]);
      assert snaps[..n][n - 1] == snaps[n - 1] && Follows(snaps[n - 1], snaps[n]);
      if snaps[n - 1].exit.Some? { FragmentWins(prefix, snaps[..n]); }
      FragmentStays(prefix, t, snaps[n - 1], snaps[n]);
    }
  }

  lemma NoRaceAgrees(prefix: string, snaps: seq<Snap>, stdout: seq<Byte>, stderr: seq<Byte>)
    requires Schedule(snaps, stdout, stderr) && NoRace(prefix, stdout, stderr)
    ensures Play(prefix, snaps).state.session == OneParse(prefix, stdout, stderr)
  {
    hide Split, AllLines, Play, Session, LastFragment, OneParse;
    OneParseIs(prefix, stdout, stderr);
    DrainsEqualOneParse(prefix, snaps, stdout, stderr);
    PlayOneOfTwo(prefix, snaps);
    if LastFragment(prefix, stderr).Some? {
      FragmentWins(prefix, snaps);
      FragmentDecides(prefix, stderr, None);
    }
  }

  lemma NothingRead(prefix: string)
    ensures Split([]) == Cut([], []) && Session(prefix, [], None) == None
  {
  }

  lemma ErrFirst(prefix: string, stderr: seq<Byte>)
    ensures DrainState(prefix, FRESH, Snap([], stderr, None, false)) ==
              State(Stream(0, []), Stream(|stderr|, Split(stderr).rest), Session(prefix, Split(stderr).lines, None),
                    false)
  {
    hide Split, Session, Unread, AllLines;
    NothingRead(prefix);
    UnreadIs(FRESH.err, stderr);
    UnreadIs(FRESH.out, []);
  }

  lemma UnreadIs(s: Stream, bytes: seq<Byte>)
    ensures s == Stream(0, []) ==> Unread(s, bytes) == bytes
    ensures s.cursor == |bytes| ==> Unread(s, bytes) == s.tail
  {
  }

  lemma OutLater(prefix: string, s: State, stdout: seq<Byte>, stderr: seq<Byte>)
    requires s.out == Stream(0, []) && s.err == Stream(|stderr|, Split(stderr).rest)
    ensures DrainState(prefix, s, Snap(stdout, stderr, Some(0), false)).session ==
              Session(prefix, AllLines(Split(stderr).rest), Session(prefix, AllLines(stdout), s.session))
  {
    hide Split, AllLines, Session, Unread, Advance;
    UnreadIs(s.out, stdout);
    UnreadIs(s.err, stderr);
  }

  /** Stderr's marker read first, then stdout's: the later drain has the last word. */
  lemma {:induction false} RaceDisagrees(prefix: string, stdout: seq<Byte>, stderr: seq<Byte>)
    requires !NoRace(prefix, stdout, stderr)
    ensures var snaps := [Snap([], stderr, None, false), Snap(stdout, stderr, Some(0), false)];
            Schedule(snaps, stdout, stderr)
            && Play(prefix, snaps).state.session == Last(prefix, stdout) != OneParse(prefix, stdout, stderr)
  {
    hide Split, AllLines, Session, LastFragment, OneParse, EffectOf, DrainState, OutLines, ErrLines, Closing;
    var a, b := Snap([], stderr, None, false), Snap(stdout, stderr, Some(0), false);
    assert [a, b][..1] == [a] && [a][..0] == [];
    OneParseIs(prefix, stdout, stderr);
    ErrFirst(prefix, stderr);
    var s := DrainState(prefix, FRESH, a);
    OutLater(prefix, s, stdout, stderr);
    SessionFrom(prefix, AllLines(stdout), s.session);
    FragmentDecides(prefix, stderr, Last(prefix, stdout));
    assert Play(prefix, [a]).state == s;
  }

  /** The session of every schedule is that of one parse exactly when the two streams do not race for it. */
  lemma SessionIsStableIff(prefix: string, stdout: seq<Byte>, stderr: seq<Byte>)
    ensures NoRace(prefix, stdout, stderr) <==>
              forall snaps :: Schedule(snaps, stdout, stderr) ==>
                Play(prefix, snaps).state.session == OneParse(prefix, stdout, stderr)
  {
    hide NoRace, Schedule, Play, OneParse, Last;
    if NoRace(prefix, stdout, stderr) {
      forall snaps | Schedule(snaps, stdout, stderr)
        ensures Play(prefix, snaps).state.session == OneParse(prefix, stdout, stderr)
      {
        NoRaceAgrees(prefix, snaps, stdout, stderr);
      }
    } else {
      RaceDisagrees(prefix, stdout, stderr);
    }
  }
}

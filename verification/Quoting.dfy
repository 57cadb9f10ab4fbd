/** Windows command lines: the quoting the agent applies to each argument, and the documented
    Microsoft C rules by which the child splits the line again. */
module Quoting {
  import opened Prelude

  function Backslashes(n: nat): (r: string)
    ensures |r| == n && forall i :: 0 <= i < n ==> r[i] == '\\'
  {
    seq(n, _ => '\\')
  }

  predicate IsBlank(c: char) { c == ' ' || c == '\t' }

  predicate NeedsQuotes(arg: string) {
    arg == "" || ' ' in arg || '\t' in arg || '"' in arg
  }

  /** The quoted body, after `pending` backslashes have been written and not yet paired. */
  function QuotedBody(arg: string, pending: nat): string {
    if arg == "" then Backslashes(pending)
    else if arg[0] == '\\' then "\\" + QuotedBody(arg[1..], pending + 1)
    else if arg[0] == '"' then Backslashes(pending) + "\\\"" + QuotedBody(arg[1..], 0)
    else [arg[0]] + QuotedBody(arg[1..], 0)
  }

  function Quote(arg: string): string {
    if NeedsQuotes(arg) then "\"" + QuotedBody(arg, 0) + "\"" else arg
  }

  /** Arguments separated by single spaces. */
  function Joined(args: seq<string>): string {
    if args == [] then ""
    else if |args| == 1 then Quote(args[0])
    else Quote(args[0]) + " " + Joined(args[1..])
  }

  lemma {:induction false} BodyGrows(arg: string, pending: nat)
    ensures |QuotedBody(arg, pending)| >= |arg|
  {
    if arg != "" { BodyGrows(arg[1..], if arg[0] == '\\' then pending + 1 else 0); }
  }

  /** An argument stays as it is exactly when it is not empty and holds no space, tab or quote; any other is put between
      quotes. */
  lemma BareIff(arg: string)
    ensures Quote(arg) == arg <==>
              arg != "" && forall i :: 0 <= i < |arg| ==> arg[i] != ' ' && arg[i] != '\t' && arg[i] != '"'
    ensures Quote(arg) != arg ==>
              |Quote(arg)| >= |arg| + 2 && Quote(arg)[0] == '"' && Quote(arg)[|Quote(arg)| - 1] == '"'
  {
    BodyGrows(arg, 0);
  }

  /** One space between any two neighbours. */
  lemma {:induction false} OneSpace(a: seq<string>, b: seq<string>)
    requires a != [] && b != []
    ensures Joined(a + b) == Joined(a) + " " + Joined(b)
  {
    hide Quote;
    assert (a + b)[1..] == a[1..] + b;
    if |a| == 1 {
      assert a[1..] + b == b;
    } else {
      OneSpace(a[1..], b);
      assert Quote(a[0]) + " " + (Joined(a[1..]) + " " + Joined(b))
          == Quote(a[0]) + " " + Joined(a[1..]) + " " + Joined(b);
    }
  }

  method QuoteArg(arg: string) returns (out: string)
    ensures out == Quote(arg)
  {
    if !NeedsQuotes(arg) { return arg; }
    out := "\"";
    var backslashes := 0;
    ghost var goal := "\"" + QuotedBody(arg, 0);
    var i := 0;
    while i < |arg|
      invariant 0 <= i <= |arg|
      invariant out + QuotedBody(arg[i..], backslashes) == goal
    {
      var ch := arg[i];
      ghost var before, tail := out, arg[i + 1..];
      assert arg[i..][1..] == tail;
      if ch == '\\' {
        assert before + ("\\" + QuotedBody(tail, backslashes + 1)) == before + "\\" + QuotedBody(tail, backslashes + 1);
        backslashes := backslashes + 1;
        out := out + [ch];
      } else if ch == '"' {
        ghost var pairs, escaped := Backslashes(backslashes), QuotedBody(tail, 0);
        assert before + (pairs + "\\\"" + escaped) == before + pairs + "\\\"" + escaped;
        out := out + Backslashes(backslashes);
        backslashes := 0;
        out := out + "\\\"";
      } else {
        assert before + ([ch] + QuotedBody(tail, 0)) == before + [ch] + QuotedBody(tail, 0);
        backslashes := 0;
        out := out + [ch];
      }
      i := i + 1;
    }
    assert arg[i..] == "";
    out := out + Backslashes(backslashes) + "\"";
  }

  lemma Regroup(a: string, b: string, c: string)
    ensures a + (b + c) == a + b + c
  {
  }

  /** `command_line`: None when argv is empty. */
  method CommandLine(argv: seq<string>) returns (line: Option<string>)
    ensures line == if argv == [] then None else Some(Joined(argv))
  {
    if argv == [] { return None; }
    hide Joined, Rest, Quote;
    var text := QuoteArg(argv[0]);
    JoinedSplit(argv);
    var i := 1;
    while i < |argv|
      invariant 1 <= i <= |argv|
      invariant Joined(argv) == text + Rest(argv[i..])
    {
      var next := QuoteArg(argv[i]);
      assert argv[i..][0] == argv[i] && argv[i..][1..] == argv[i + 1..];
      JoinNext(text, argv[i..]);
      text := text + " " + next;
      i := i + 1;
    }
    NothingLeft(text, argv[i..]);
    line := Some(text);
  }

  lemma JoinedSplit(args: seq<string>)
    requires args != []
    ensures Joined(args) == Quote(args[0]) + Rest(args[1..])
  {
    hide Quote;
    if |args| == 1 {
      assert Quote(args[0]) + "" == Quote(args[0]);
    } else {
      Regroup(Quote(args[0]), " ", Joined(args[1..]));
    }
  }

  lemma NothingLeft(text: string, args: seq<string>)
    requires args == []
    ensures text + Rest(args) == text
  {
  }

  /** What `join` still appends. */
  function Rest(args: seq<string>): string { if args == [] then "" else " " + Joined(args) }

  lemma JoinNext(text: string, args: seq<string>)
    requires args != []
    ensures text + Rest(args) == text + " " + Quote(args[0]) + Rest(args[1..])
  {
    hide Quote;
    JoinedSplit(args);
    Regroup(text, " ", Joined(args));
    Regroup(text + " ", Quote(args[0]), Rest(args[1..]));
  }

  // --- Microsoft's rules for arguments after the program name --------------------------

  function RunLength(s: string): (n: nat)
    ensures n <= |s|
    ensures forall i :: 0 <= i < n ==> s[i] == '\\'
    ensures n < |s| ==> s[n] != '\\'
  {
    if s != "" && s[0] == '\\' then 1 + RunLength(s[1..]) else 0
  }

  /** Reads one argument; `read` is what is known of it so far. Backslashes are literal unless a
      quote follows, then each pair is one backslash and an odd one makes the quote literal. Inside
      quotes, two quotes in a row are one literal quote. */
  function ReadArg(s: string, quoted: bool, read: string): (r: (string, string))
    ensures |r.1| <= |s|
    ensures s != "" && (quoted || !IsBlank(s[0])) ==> |r.1| < |s|
    decreases |s|
  {
    if s == "" || (!quoted && IsBlank(s[0])) then (read, s)
    else if s[0] == '\\' then
      var n := RunLength(s);
      var after := s[n..];
      if after == "" || after[0] != '"' then ReadArg(after, quoted, read + Backslashes(n))
      else if n % 2 == 1 then ReadArg(after[1..], quoted, read + Backslashes(n / 2) + "\"")
      else ReadArg(after, quoted, read + Backslashes(n / 2))
    else if s[0] == '"' then
      if quoted && |s| > 1 && s[1] == '"' then ReadArg(s[2..], true, read + "\"")
      else ReadArg(s[1..], !quoted, read)
    else ReadArg(s[1..], quoted, read + [s[0]])
  }

  function Split(line: string): seq<string>
    decreases |line|
  {
    if line == "" then []
    else if IsBlank(line[0]) then Split(line[1..])
    else
      var (arg, rest) := ReadArg(line, false, "");
      [arg] + Split(rest)
  }

  // --- the round trip -----------------------------------------------------------------

  lemma {:induction false} RunOf(n: nat, rest: string)
    requires rest == "" || rest[0] != '\\'
    ensures RunLength(Backslashes(n) + rest) == n
    ensures (Backslashes(n) + rest)[n..] == rest
  {
    var s := Backslashes(n) + rest;
    if n == 0 {
      assert s == rest;
    } else {
      assert s[1..] == Backslashes(n - 1) + rest;
      RunOf(n - 1, rest);
    }
  }

  /** A run of backslashes that no quote follows is literal. */
  lemma LiteralRun(n: nat, rest: string, quoted: bool, read: string)
    requires rest == "" || (rest[0] != '\\' && rest[0] != '"')
    ensures ReadArg(Backslashes(n) + rest, quoted, read) == ReadArg(rest, quoted, read + Backslashes(n))
  {
    RunOf(n, rest);
    if n == 0 {
      assert Backslashes(n) + rest == rest && read + Backslashes(n) == read;
    }
  }

  /** 2n backslashes before a quote are n, and the quote is a delimiter; 2n+1 make it literal. */
  lemma QuoteRun(n: nat, odd: bool, rest: string, read: string)
    ensures ReadArg(Backslashes(if odd then 2 * n + 1 else 2 * n) + "\"" + rest, true, read)
         == if odd then ReadArg(rest, true, read + Backslashes(n) + "\"")
            else ReadArg("\"" + rest, true, read + Backslashes(n))
  {
    var m := if odd then 2 * n + 1 else 2 * n;
    var after := "\"" + rest;
    RunOf(m, after);
    assert Backslashes(m) + "\"" + rest == Backslashes(m) + after;
    assert after[1..] == rest;
    assert m / 2 == n;
    if m == 0 {
      assert Backslashes(0) + after == after && read + Backslashes(0) == read;
    }
  }

  predicate EndsArg(rest: string) { rest == "" || IsBlank(rest[0]) }

  lemma PlainChar(c: char, rest: string, quoted: bool, read: string)
    requires c != '\\' && c != '"' && (quoted || !IsBlank(c))
    ensures ReadArg([c] + rest, quoted, read) == ReadArg(rest, quoted, read + [c])
  {
    assert ([c] + rest)[1..] == rest;
  }

  lemma {:induction false} ReadQuotedBody(arg: string, pending: nat, rest: string, read: string)
    requires EndsArg(rest)
    ensures ReadArg(Backslashes(pending) + QuotedBody(arg, pending) + "\"" + rest, true, read)
         == (read + Backslashes(pending) + arg, rest)
    decreases |arg|
  {
    hide ReadArg;
    var p := Backslashes(pending);
    if arg == "" {
      ReadClosing(pending, rest, read);
    } else {
      var tail := arg[1..];
      var body := QuotedBody(tail, 0);
      var later := body + "\"" + rest;
      assert Backslashes(0) + body + "\"" + rest == later;
      if arg[0] == '\\' {
        var body' := QuotedBody(tail, pending + 1);
        assert p + ("\\" + body') + "\"" + rest == Backslashes(pending + 1) + body' + "\"" + rest;
        ReadQuotedBody(tail, pending + 1, rest, read);
        assert read + Backslashes(pending + 1) + tail == read + p + arg;
      } else if arg[0] == '"' {
        assert p + (p + "\\\"" + body) + "\"" + rest == Backslashes(2 * pending + 1) + "\"" + later;
        QuoteRun(pending, true, later, read);
        ReadQuotedBody(tail, 0, rest, read + p + "\"");
        assert read + p + "\"" + Backslashes(0) + tail == read + p + arg;
      } else {
        assert p + ([arg[0]] + body) + "\"" + rest == p + ([arg[0]] + later);
        LiteralRun(pending, [arg[0]] + later, true, read);
        PlainChar(arg[0], later, true, read + p);
        ReadQuotedBody(tail, 0, rest, read + p + [arg[0]]);
        assert read + p + [arg[0]] + Backslashes(0) + tail == read + p + arg;
      }
    }
  }

  lemma ReadClosing(pending: nat, rest: string, read: string)
    requires EndsArg(rest)
    ensures ReadArg(Backslashes(pending) + Backslashes(pending) + "\"" + rest, true, read)
         == (read + Backslashes(pending) + "", rest)
  {
    var p := Backslashes(pending);
    assert p + p + "\"" + rest == Backslashes(2 * pending) + "\"" + rest;
    QuoteRun(pending, false, rest, read);
    assert ("\"" + rest)[1..] == rest;
    assert read + p + "" == read + p;
  }

  lemma ReadNothing(rest: string, read: string)
    requires EndsArg(rest)
    ensures ReadArg(rest, false, read) == (read, rest)
  {
  }

  lemma OpenQuote(body: string)
    ensures ReadArg("\"" + body, false, "") == ReadArg(body, true, "")
  {
    assert ("\"" + body)[1..] == body;
  }

  /** No blank and no quote. */
  predicate Bare(arg: string) { forall i :: 0 <= i < |arg| ==> !IsBlank(arg[i]) && arg[i] != '"' }

  lemma BareTail(arg: string, k: nat)
    requires Bare(arg) && k <= |arg|
    ensures Bare(arg[k..]) && (k < |arg| ==> !IsBlank(arg[k]) && arg[k] != '"')
  {
  }

  /** An argument as its leading backslashes, one other character and a tail. */
  lemma Pieces(arg: string, rest: string, read: string)
    requires RunLength(arg) < |arg|
    ensures var n := RunLength(arg);
            var c, tail, run := arg[n], arg[n + 1..], Backslashes(n);
            arg + rest == run + ([c] + (tail + rest)) && read + run + [c] + tail == read + arg
  {
    var n := RunLength(arg);
    var run, more := Backslashes(n), arg[n..];
    assert arg == run + more;
    assert more == [arg[n]] + arg[n + 1..];
    Regroup(run, more, rest);
    Regroup([arg[n]], arg[n + 1..], rest);
    Regroup(read, run, more);
    Regroup(read + run, [arg[n]], arg[n + 1..]);
  }

  lemma {:induction false} ReadPlain(arg: string, rest: string, read: string)
    requires EndsArg(rest) && Bare(arg)
    ensures ReadArg(arg + rest, false, read) == (read + arg, rest)
    decreases |arg|
  {
    hide ReadArg, NeedsQuotes, Bare;
    var n := RunLength(arg);
    if n == |arg| {
      assert arg == Backslashes(n);
      ReadRun(n, rest, read);
    } else {
      var c, tail, run := arg[n], arg[n + 1..], Backslashes(n);
      Pieces(arg, rest, read);
      BareTail(arg, n);
      BareTail(arg, n + 1);
      LiteralRun(n, [c] + (tail + rest), false, read);
      PlainChar(c, tail + rest, false, read + run);
      ReadPlain(tail, rest, read + run + [c]);
    }
  }

  lemma ReadRun(n: nat, rest: string, read: string)
    requires EndsArg(rest)
    ensures ReadArg(Backslashes(n) + rest, false, read) == (read + Backslashes(n), rest)
  {
    hide ReadArg;
    LiteralRun(n, rest, false, read);
    ReadNothing(rest, read + Backslashes(n));
  }

  /** Reading a quoted argument yields the argument and stops right after it. */
  lemma ReadQuote(arg: string, rest: string)
    requires EndsArg(rest)
    ensures ReadArg(Quote(arg) + rest, false, "") == (arg, rest)
    ensures Quote(arg) != "" && !IsBlank(Quote(arg)[0])
  {
    hide ReadArg, QuotedBody;
    if NeedsQuotes(arg) {
      var body := QuotedBody(arg, 0) + "\"" + rest;
      assert Quote(arg) + rest == "\"" + body;
      assert Backslashes(0) + QuotedBody(arg, 0) + "\"" + rest == body;
      OpenQuote(body);
      ReadQuotedBody(arg, 0, rest, "");
      assert "" + Backslashes(0) + arg == arg;
    } else {
      assert Bare(arg);
      ReadPlain(arg, rest, "");
      assert "" + arg == arg;
    }
  }

  /** The child recovers exactly the argument list, whatever the arguments contain. */
  lemma {:induction false} SplitJoined(args: seq<string>)
    ensures Split(Joined(args)) == args
  {
    if args != [] {
      var rest := if |args| == 1 then "" else " " + Joined(args[1..]);
      ReadQuote(args[0], rest);
      assert Joined(args) == Quote(args[0]) + rest;
      if |args| > 1 {
        assert rest[1..] == Joined(args[1..]);
        SplitJoined(args[1..]);
      }
      assert args == [args[0]] + args[1..];
    }
  }

  /** Quoting is injective: no two argument lists share a command line. */
  lemma JoinedInjective(a: seq<string>, b: seq<string>)
    requires Joined(a) == Joined(b)
    ensures a == b
  {
    SplitJoined(a);
    SplitJoined(b);
  }
}

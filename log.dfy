/** The process-wide trace pipeline of log.go. The Go globals `_chTrace`,
    `_file`, `_build`, `_onLog` and `_console` become the fields of one
    `Logger` object; the buffered channel becomes a sequence of at most
    `Capacity` traces, and the goroutine running `logRoutine` becomes a method
    that the caller runs between producer calls. What stdout, the log file and
    the callback see is recorded, in order, as a sequence of effects. */
module Log {
  import opened Strings
  import opened Traces

  /** The buffer size `_chTrace` is made with. */
  const Capacity: nat := 100

  /** One call writeConsole makes on the colour library or on os.Stdout. */
  datatype ConsoleOp = SetColour(colour: Colour) | Write(text: string) | Unset

  /** One observable effect of the logger. */
  datatype Effect =
    | Console(op: ConsoleOp)
      /** os.OpenFile with O_TRUNC: the file starts out empty. */
    | FileOpened(path: string)
    | FileWrite(text: string)
    | FileClosed
    | Callback(trace: Trace)

  /** The globals writeLog consults: `_console`, `_file != nil`, `_onLog != nil`. */
  datatype Sinks = Sinks(console: bool, fileOpen: bool, onLog: bool)

  /** Console effects come first, then file effects, then the callback. */
  function Rank(e: Effect): nat
  {
    match e
    case Console(_) => 0
    case FileOpened(_) => 1
    case FileWrite(_) => 1
    case FileClosed => 1
    case Callback(_) => 2
  }

  /** What writeConsole does with a trace printed as `line`. */
  function ConsoleEffects(t: Trace, line: string): seq<Effect>
  {
    var colour := match ConsoleColour(t.kind)
      case Some(c) => [Console(SetColour(c))]
      case None => [];
    colour + [Console(Write(line)), Console(Write("\n")), Console(Unset)]
  }

  /** writeConsole sets the kind's colour first when the kind has one, then
      writes the line and a newline to stdout, and always unsets the colour
      afterwards; it touches nothing but the console. */
  lemma ConsoleEffectsShape(t: Trace, line: string)
    ensures var e := ConsoleEffects(t, line);
      && |e| == (if ConsoleColour(t.kind).Some? then 4 else 3)
      && (ConsoleColour(t.kind).Some? ==> e[0] == Console(SetColour(ConsoleColour(t.kind).value)))
      && e[|e| - 3..] == [Console(Write(line)), Console(Write("\n")), Console(Unset)]
      && forall i :: 0 <= i < |e| ==> e[i].Console?
  {
  }

  /** The console part of writeLog. */
  function ConsolePart(s: Sinks, t: Trace, line: string): seq<Effect>
  {
    if s.console || t.kind == Debug then ConsoleEffects(t, line) else []
  }

  /** The file part of writeLog. */
  function FilePart(s: Sinks, line: string): seq<Effect>
  {
    if s.fileOpen then [FileWrite(line), FileWrite("\n")] else []
  }

  /** The callback part of writeLog. */
  function CallbackPart(s: Sinks, t: Trace): seq<Effect>
  {
    if s.onLog then [Callback(t)] else []
  }

  /** What writeLog does with one trace: the console part, the file part and
      the callback part, in that order. Which sinks it reaches is
      RoutedProjections; the order is RoutedOrder. */
  function Routed(s: Sinks, t: Trace, line: string): seq<Effect>
  {
    ConsolePart(s, t, line) + FilePart(s, line) + CallbackPart(s, t)
  }

  /** writeLog visits the sinks in the order console, file, callback. */
  lemma RoutedOrder(s: Sinks, t: Trace, line: string)
    ensures var e := Routed(s, t, line);
      forall i, j :: 0 <= i < j < |e| ==> Rank(e[i]) <= Rank(e[j])
  {
    var console := ConsolePart(s, t, line);
    if s.console || t.kind == Debug {
      ConsoleEffectsShape(t, line);
    }
    assert forall i :: 0 <= i < |console| ==> Rank(console[i]) == 0;
    RankedConcat(console, FilePart(s, line), CallbackPart(s, t));
  }

  /** Three runs of ranks 0, 1 and 2 put together are ordered by rank. */
  lemma RankedConcat(c: seq<Effect>, f: seq<Effect>, k: seq<Effect>)
    requires forall i :: 0 <= i < |c| ==> Rank(c[i]) == 0
    requires forall i :: 0 <= i < |f| ==> Rank(f[i]) == 1
    requires forall i :: 0 <= i < |k| ==> Rank(k[i]) == 2
    ensures var e := c + f + k;
      forall i, j :: 0 <= i < j < |e| ==> Rank(e[i]) <= Rank(e[j])
  {
    var e := c + f + k;
    assert forall i :: 0 <= i < |e| ==>
      Rank(e[i]) == if i < |c| then 0 else if i < |c| + |f| then 1 else 2;
  }

  /** writeLog's effects are its three parts, one after the other. */
  lemma RoutedParts(before: seq<Effect>, s: Sinks, t: Trace, line: string)
    ensures before + ConsolePart(s, t, line) + FilePart(s, line) + CallbackPart(s, t)
         == before + Routed(s, t, line)
  {
  }

  /** What the consumer produces for a queue of traces, taken in order. */
  function Dispatch(s: Sinks, line: Trace -> string, q: seq<Trace>): seq<Effect>
  {
    if q == [] then [] else Routed(s, q[0], line(q[0])) + Dispatch(s, line, q[1..])
  }

  /** Routing the head of the queue and then dispatching the rest is
      dispatching the whole queue. */
  lemma ConsumeStep(e: seq<Effect>, s: Sinks, line: Trace -> string, q: seq<Trace>)
    requires q != []
    ensures e + Routed(s, q[0], line(q[0])) + Dispatch(s, line, q[1..]) == e + Dispatch(s, line, q)
  {
    AppendAssoc(e, Routed(s, q[0], line(q[0])), Dispatch(s, line, q[1..]));
  }

  lemma AppendAssoc<T>(a: seq<T>, b: seq<T>, c: seq<T>)
    ensures a + b + c == a + (b + c)
  {
  }

  /** Consuming two stretches of the queue one after the other is consuming both. */
  lemma {:induction false} DispatchAppend(s: Sinks, line: Trace -> string, q1: seq<Trace>, q2: seq<Trace>)
    ensures Dispatch(s, line, q1 + q2) == Dispatch(s, line, q1) + Dispatch(s, line, q2)
    decreases |q1|
  {
    if q1 == [] {
      assert q1 + q2 == q2;
    } else {
      assert (q1 + q2)[0] == q1[0] && (q1 + q2)[1..] == q1[1..] + q2;
      DispatchAppend(s, line, q1[1..], q2);
      AppendAssoc(Routed(s, q1[0], line(q1[0])), Dispatch(s, line, q1[1..]), Dispatch(s, line, q2));
    }
  }

  /** The traces handed to the callback, in order. */
  function Delivered(e: seq<Effect>): seq<Trace>
  {
    if e == [] then [] else (if e[0].Callback? then [e[0].trace] else []) + Delivered(e[1..])
  }

  /** The texts written to the log file, in order. */
  function FileTexts(e: seq<Effect>): seq<string>
  {
    if e == [] then [] else (if e[0].FileWrite? then [e[0].text] else []) + FileTexts(e[1..])
  }

  /** The texts written to stdout, in order. */
  function ConsoleTexts(e: seq<Effect>): seq<string>
  {
    if e == [] then []
    else (if e[0].Console? && e[0].op.Write? then [e[0].op.text] else []) + ConsoleTexts(e[1..])
  }

  /** Each projection of a concatenation is the concatenation of the projections. */
  lemma ProjectionsAppend(a: seq<Effect>, b: seq<Effect>)
    ensures Delivered(a + b) == Delivered(a) + Delivered(b)
    ensures FileTexts(a + b) == FileTexts(a) + FileTexts(b)
    ensures ConsoleTexts(a + b) == ConsoleTexts(a) + ConsoleTexts(b)
  {
    DeliveredAppend(a, b);
    FileTextsAppend(a, b);
    ConsoleTextsAppend(a, b);
  }

  lemma {:induction false} DeliveredAppend(a: seq<Effect>, b: seq<Effect>)
    ensures Delivered(a + b) == Delivered(a) + Delivered(b)
    decreases |a|
  {
    if a == [] {
      assert a + b == b;
    } else {
      var head := if a[0].Callback? then [a[0].trace] else [];
      assert (a + b)[0] == a[0] && (a + b)[1..] == a[1..] + b;
      assert Delivered(a + b) == head + Delivered(a[1..] + b);
      DeliveredAppend(a[1..], b);
      AppendAssoc(head, Delivered(a[1..]), Delivered(b));
    }
  }

  lemma {:induction false} FileTextsAppend(a: seq<Effect>, b: seq<Effect>)
    ensures FileTexts(a + b) == FileTexts(a) + FileTexts(b)
    decreases |a|
  {
    if a == [] {
      assert a + b == b;
    } else {
      var head := if a[0].FileWrite? then [a[0].text] else [];
      assert (a + b)[0] == a[0] && (a + b)[1..] == a[1..] + b;
      assert FileTexts(a + b) == head + FileTexts(a[1..] + b);
      FileTextsAppend(a[1..], b);
      AppendAssoc(head, FileTexts(a[1..]), FileTexts(b));
    }
  }

  lemma {:induction false} ConsoleTextsAppend(a: seq<Effect>, b: seq<Effect>)
    ensures ConsoleTexts(a + b) == ConsoleTexts(a) + ConsoleTexts(b)
    decreases |a|
  {
    if a == [] {
      assert a + b == b;
    } else {
      var head := if a[0].Console? && a[0].op.Write? then [a[0].op.text] else [];
      assert (a + b)[0] == a[0] && (a + b)[1..] == a[1..] + b;
      assert ConsoleTexts(a + b) == head + ConsoleTexts(a[1..] + b);
      ConsoleTextsAppend(a[1..], b);
      AppendAssoc(head, ConsoleTexts(a[1..]), ConsoleTexts(b));
    }
  }

  /** The projections of a single effect. */
  lemma ProjectOne(e: Effect)
    ensures Delivered([e]) == if e.Callback? then [e.trace] else []
    ensures FileTexts([e]) == if e.FileWrite? then [e.text] else []
    ensures ConsoleTexts([e]) == if e.Console? && e.op.Write? then [e.op.text] else []
  {
    assert [e][1..] == [];
  }

  /** Each trace's line followed by a newline, in queue order. */
  function Lines(line: Trace -> string, q: seq<Trace>): seq<string>
  {
    if q == [] then [] else [line(q[0]), "\n"] + Lines(line, q[1..])
  }

  /** Where each trace's line ends up among the texts. */
  lemma {:induction false} LinesAt(line: Trace -> string, q: seq<Trace>)
    ensures |Lines(line, q)| == 2 * |q|
    ensures forall i :: 0 <= i < |q| ==> Lines(line, q)[2 * i] == line(q[i]) && Lines(line, q)[2 * i + 1] == "\n"
    decreases |q|
  {
    if q != [] {
      LinesAt(line, q[1..]);
      var l := Lines(line, q);
      assert l == [line(q[0]), "\n"] + Lines(line, q[1..]);
      forall i | 0 <= i < |q|
        ensures l[2 * i] == line(q[i]) && l[2 * i + 1] == "\n"
      {
        if i > 0 {
          assert l[2 * i] == Lines(line, q[1..])[2 * (i - 1)];
          assert l[2 * i + 1] == Lines(line, q[1..])[2 * (i - 1) + 1];
        }
      }
    }
  }

  /** The traces the console is shown: all of them when `_console` is set,
      otherwise only the debug traces. */
  function Shown(s: Sinks, q: seq<Trace>): seq<Trace>
  {
    if q == [] then []
    else (if s.console || q[0].kind == Debug then [q[0]] else []) + Shown(s, q[1..])
  }

  /** The callback receives every consumed trace exactly once, in queue order,
      when one is registered, and nothing otherwise. */
  lemma {:induction false} DispatchDelivers(s: Sinks, line: Trace -> string, q: seq<Trace>)
    ensures Delivered(Dispatch(s, line, q)) == if s.onLog then q else []
    decreases |q|
  {
    if q != [] {
      var t := q[0];
      var r := Routed(s, t, line(t));
      DispatchDelivers(s, line, q[1..]);
      ProjectionsAppend(r, Dispatch(s, line, q[1..]));
      RoutedProjections(s, t, line(t));
      if s.onLog {
        assert [t] + q[1..] == q;
      }
    }
  }

  /** The log file receives every consumed trace's line and a newline, in
      queue order, when a file is open, and nothing otherwise. */
  lemma {:induction false} DispatchFile(s: Sinks, line: Trace -> string, q: seq<Trace>)
    ensures FileTexts(Dispatch(s, line, q)) == if s.fileOpen then Lines(line, q) else []
    decreases |q|
  {
    if q != [] {
      var t := q[0];
      var r := Routed(s, t, line(t));
      DispatchFile(s, line, q[1..]);
      ProjectionsAppend(r, Dispatch(s, line, q[1..]));
      RoutedProjections(s, t, line(t));
    }
  }

  /** Stdout receives the line and a newline of exactly the traces it is
      shown, in queue order. */
  lemma {:induction false} DispatchConsole(s: Sinks, line: Trace -> string, q: seq<Trace>)
    ensures ConsoleTexts(Dispatch(s, line, q)) == Lines(line, Shown(s, q))
    decreases |q|
  {
    if q != [] {
      var t := q[0];
      var r := Routed(s, t, line(t));
      DispatchConsole(s, line, q[1..]);
      ProjectionsAppend(r, Dispatch(s, line, q[1..]));
      RoutedProjections(s, t, line(t));
      var shownHere := if s.console || t.kind == Debug then [t] else [];
      LinesAppend(line, shownHere, Shown(s, q[1..]));
    }
  }

  lemma {:induction false} LinesAppend(line: Trace -> string, q1: seq<Trace>, q2: seq<Trace>)
    ensures Lines(line, q1 + q2) == Lines(line, q1) + Lines(line, q2)
    decreases |q1|
  {
    if q1 == [] {
      assert q1 + q2 == q2;
    } else {
      assert (q1 + q2)[0] == q1[0] && (q1 + q2)[1..] == q1[1..] + q2;
      LinesAppend(line, q1[1..], q2);
      AppendAssoc([line(q1[0]), "\n"], Lines(line, q1[1..]), Lines(line, q2));
    }
  }

  /** Which sinks writeLog reaches, and what each receives: the console the
      line and a newline iff `_console` is set or the trace is a debug trace,
      the file the same iff a file is open, the callback the trace itself iff
      one is registered. */
  lemma RoutedProjections(s: Sinks, t: Trace, line: string)
    ensures Delivered(Routed(s, t, line)) == if s.onLog then [t] else []
    ensures FileTexts(Routed(s, t, line)) == if s.fileOpen then [line, "\n"] else []
    ensures ConsoleTexts(Routed(s, t, line)) == if s.console || t.kind == Debug then [line, "\n"] else []
  {
    var console, file, callback := ConsolePart(s, t, line), FilePart(s, line), CallbackPart(s, t);
    assert Routed(s, t, line) == console + file + callback;
    ProjectionsAppend(console + file, callback);
    ProjectionsAppend(console, file);
    ConsolePartProjections(s, t, line);
    FilePartProjections(s, line);
    CallbackPartProjections(s, t);
  }

  lemma ConsolePartProjections(s: Sinks, t: Trace, line: string)
    ensures Delivered(ConsolePart(s, t, line)) == []
    ensures FileTexts(ConsolePart(s, t, line)) == []
    ensures ConsoleTexts(ConsolePart(s, t, line)) == if s.console || t.kind == Debug then [line, "\n"] else []
  {
    if s.console || t.kind == Debug {
      ConsoleEffectsProjections(t, line);
    }
  }

  lemma FilePartProjections(s: Sinks, line: string)
    ensures Delivered(FilePart(s, line)) == []
    ensures FileTexts(FilePart(s, line)) == if s.fileOpen then [line, "\n"] else []
    ensures ConsoleTexts(FilePart(s, line)) == []
  {
    if s.fileOpen {
      var a, b := FileWrite(line), FileWrite("\n");
      ProjectOne(a);
      ProjectOne(b);
      ProjectionsAppend([a], [b]);
      assert [a] + [b] == FilePart(s, line);
    }
  }

  lemma CallbackPartProjections(s: Sinks, t: Trace)
    ensures Delivered(CallbackPart(s, t)) == if s.onLog then [t] else []
    ensures FileTexts(CallbackPart(s, t)) == []
    ensures ConsoleTexts(CallbackPart(s, t)) == []
  {
    if s.onLog {
      ProjectOne(Callback(t));
    }
  }

  lemma ConsoleEffectsProjections(t: Trace, line: string)
    ensures Delivered(ConsoleEffects(t, line)) == []
    ensures FileTexts(ConsoleEffects(t, line)) == []
    ensures ConsoleTexts(ConsoleEffects(t, line)) == [line, "\n"]
  {
    var tail := [Console(Write(line)), Console(Write("\n")), Console(Unset)];
    PrintProjections(line);
    match ConsoleColour(t.kind)
    case Some(col) =>
      var setColour := Console(SetColour(col));
      ProjectOne(setColour);
      ProjectionsAppend([setColour], tail);
      assert ConsoleEffects(t, line) == [setColour] + tail;
    case None =>
      assert ConsoleEffects(t, line) == tail;
  }

  /** Writing the line, the newline and unsetting the colour show the line
      and the newline on stdout and nothing elsewhere. */
  lemma PrintProjections(line: string)
    ensures var e := [Console(Write(line)), Console(Write("\n")), Console(Unset)];
      Delivered(e) == [] && FileTexts(e) == [] && ConsoleTexts(e) == [line, "\n"]
  {
    var a, b, c := Console(Write(line)), Console(Write("\n")), Console(Unset);
    assert [a, b, c][1..] == [b, c] && [b, c][1..] == [c] && [c][1..] == [];
    assert Delivered([c]) == [] && FileTexts([c]) == [] && ConsoleTexts([c]) == [];
    assert Delivered([b, c]) == [] && FileTexts([b, c]) == [] && ConsoleTexts([b, c]) == ["\n"];
  }

  /** The logger's globals. */
  class Logger {
    /** syscall.Getpid(). */
    const pid: int
    /** sliceAsString, which renders a payload; it is not part of this model. */
    const render: seq<string> -> string
    /** asString: the text the console and the file receive for a trace (the
        callback receives the trace itself). */
    const line: Trace -> string

    /** `_chTrace != nil`. */
    var started: bool
    /** The traces buffered in `_chTrace`, oldest first. */
    var queue: seq<Trace>
    /** `_build`. */
    var build: string
    /** `_console`. */
    var console: bool
    /** `_onLog != nil`. */
    var onLog: bool
    /** `_file != nil`. */
    var fileOpen: bool
    /** Everything stdout, the log file and the callback have seen. */
    var effects: seq<Effect>

    ghost predicate Valid()
      reads this
    {
      && |queue| <= Capacity
      && (!started ==> queue == [] && !fileOpen)
    }

    function Routing(): Sinks
      reads this
    {
      Sinks(console, fileOpen, onLog)
    }

    /** The globals as the program starts: every one of them zero. */
    constructor(pid: int, render: seq<string> -> string)
      ensures Valid()
      ensures this.pid == pid && this.render == render
      ensures forall t :: line(t) == AsString(t, pid, render(t.data))
      ensures !started && queue == [] && build == "" && !console && !onLog && !fileOpen
      ensures effects == []
    {
      this.pid, this.render := pid, render;
      this.line := (t: Trace) => AsString(t, pid, render(t.data));
      started, queue, build, console, onLog, fileOpen := false, [], "", false, false, false;
      effects := [];
    }

    /** openLogFile: with an empty path nothing is opened; otherwise the file is
        created or truncated, unless `openError` (the outcome of os.OpenFile)
        says it could not be. */
    method OpenLogFile(logFile: string, openError: Option<Err>) returns (err: Option<Err>)
      requires Valid() && !started
      modifies this`fileOpen, this`effects
      ensures logFile == "" ==> err.None? && fileOpen == old(fileOpen) && effects == old(effects)
      ensures logFile != "" && openError.Some? ==>
        err == openError && !fileOpen && effects == old(effects)
      ensures logFile != "" && openError.None? ==>
        err.None? && fileOpen && effects == old(effects) + [FileOpened(logFile)]
    {
      err := None;
      if logFile != "" {
        if openError.Some? {
          fileOpen := false;
          err := openError;
        } else {
          fileOpen := true;
          effects := effects + [FileOpened(logFile)];
        }
      }
    }

    /** StartLog. A logger already started is left exactly as it is. A file
        that cannot be opened is reported and leaves the logger unstarted. */
    method StartLog(logFile: string, build: string, console: bool, onLog: bool, openError: Option<Err>)
      returns (err: Option<Err>)
      requires Valid()
      modifies this
      ensures Valid()
      ensures old(started) ==> err.None? && unchanged(this)
      ensures !old(started) && logFile != "" && openError.Some? ==>
        && err == openError && !started && queue == [] && !fileOpen
        && this.build == old(this.build) && this.console == old(this.console)
        && this.onLog == old(this.onLog) && effects == old(effects)
      ensures !old(started) && (logFile == "" || openError.None?) ==>
        && err.None? && started && queue == []
        && this.build == build && this.console == console && this.onLog == onLog
        && fileOpen == (logFile != "")
        && effects == old(effects) + (if logFile != "" then [FileOpened(logFile)] else [])
    {
      if started {
        return None;
      }
      err := OpenLogFile(logFile, openError);
      if err.Some? {
        return;
      }
      started, queue := true, [];
      this.build, this.onLog, this.console := build, onLog, console;
    }

    /** CloseLog. The channel and the file are dropped; `_build`, `_console`
        and `_onLog` keep their values. Traces still buffered are never
        written: the consumer's next receive reads the now nil channel. */
    method CloseLog()
      requires Valid()
      modifies this`started, this`queue, this`fileOpen, this`effects
      ensures Valid()
      ensures !started && !fileOpen && queue == []
      ensures effects == old(effects) + (if old(fileOpen) then [FileClosed] else [])
      ensures !old(started) ==> unchanged(this)
    {
      if started {
        started, queue := false, [];
      }
      if fileOpen {
        effects := effects + [FileClosed];
        fileOpen := false;
      }
    }

    /** `_chTrace <- t`. A send on a full channel waits until logRoutine
        takes a trace; the model's consumer runs only between producer
        calls, so the queue must have room. A send on the nil channel, before
        StartLog or after CloseLog, blocks for ever, so the logger must be
        started. */
    method Send(t: Trace)
      requires Valid() && started && |queue| < Capacity
      modifies this`queue
      ensures Valid()
      ensures queue == old(queue) + [t]
    {
      queue := queue + [t];
    }

    /** Check: a non-nil error is queued as an error trace and reported as true. */
    method Check(err: Option<Err>, data: seq<string>, ctx: Context) returns (failed: bool)
      requires Valid()
      requires err.Some? ==> started && |queue| < Capacity
      modifies this`queue
      ensures Valid()
      ensures failed <==> err.Some?
      ensures queue == old(queue) +
        (if err.Some? then [Trace(Error, build, data, ctx.stack, ctx.now, ctx.ResolvedCaller(), err)] else [])
    {
      if err.Some? {
        Send(Trace(Error, build, data, ctx.stack, ctx.now, ctx.ResolvedCaller(), err));
        return true;
      }
      return false;
    }

    /** Fail: like Check, but hands the error back unchanged. */
    method Fail(err: Option<Err>, data: seq<string>, ctx: Context) returns (r: Option<Err>)
      requires Valid()
      requires err.Some? ==> started && |queue| < Capacity
      modifies this`queue
      ensures Valid()
      ensures r == err
      ensures queue == old(queue) +
        (if err.Some? then [Trace(Error, build, data, ctx.stack, ctx.now, ctx.ResolvedCaller(), err)] else [])
    {
      if err.Some? {
        Send(Trace(Error, build, data, ctx.stack, ctx.now, ctx.ResolvedCaller(), err));
      }
      r := err;
    }

    /** Warning: queues a warning trace; no stack is captured. */
    method Warning(data: seq<string>, ctx: Context)
      requires Valid() && started && |queue| < Capacity
      modifies this`queue
      ensures Valid()
      ensures queue == old(queue) + [Trace(Traces.Warning, build, data, "", ctx.now, ctx.ResolvedCaller(), None)]
    {
      Send(Trace(Traces.Warning, build, data, "", ctx.now, ctx.ResolvedCaller(), None));
    }

    /** Info: queues an info trace; no stack is captured. */
    method Info(data: seq<string>, ctx: Context)
      requires Valid() && started && |queue| < Capacity
      modifies this`queue
      ensures Valid()
      ensures queue == old(queue) + [Trace(Traces.Info, build, data, "", ctx.now, ctx.ResolvedCaller(), None)]
    {
      Send(Trace(Traces.Info, build, data, "", ctx.now, ctx.ResolvedCaller(), None));
    }

    /** Debug: queues a debug trace together with the stack. */
    method Debug(data: seq<string>, ctx: Context)
      requires Valid() && started && |queue| < Capacity
      modifies this`queue
      ensures Valid()
      ensures queue == old(queue) + [Trace(Traces.Debug, build, data, ctx.stack, ctx.now, ctx.ResolvedCaller(), None)]
    {
      Send(Trace(Traces.Debug, build, data, ctx.stack, ctx.now, ctx.ResolvedCaller(), None));
    }

    /** Assert: a true condition does nothing. A false one builds an assert
        trace (build "<assert>"), closes the logger without queueing the trace,
        and panics with the trace's line, returned here as `panicMessage`. */
    method Assert(condition: bool, data: seq<string>, ctx: Context) returns (panicMessage: Option<string>)
      requires Valid()
      modifies this`started, this`queue, this`fileOpen, this`effects
      ensures Valid()
      ensures condition ==> panicMessage.None? && unchanged(this)
      ensures !condition ==>
        && !started && !fileOpen && queue == []
        && effects == old(effects) + (if old(fileOpen) then [FileClosed] else [])
        && panicMessage == Some(line(Trace(Traces.Assert, "<assert>", data, ctx.stack, ctx.now, ctx.ResolvedCaller(), None)))
    {
      panicMessage := None;
      if !condition {
        var t := Trace(Traces.Assert, "<assert>", data, ctx.stack, ctx.now, ctx.ResolvedCaller(), None);
        CloseLog();
        panicMessage := Some(line(t));
      }
    }

    /** writeConsole. */
    method WriteConsole(t: Trace)
      modifies this`effects
      ensures effects == old(effects) + ConsoleEffects(t, line(t))
    {
      match ConsoleColour(t.kind) {
        case Some(c) => effects := effects + [Console(SetColour(c))];
        case None =>
      }
      var text := line(t);
      effects := effects + [Console(Write(text))];
      effects := effects + [Console(Write("\n"))];
      effects := effects + [Console(Unset)];
    }

    /** writeLog: console when `_console` is set or the trace is a debug
        trace, then the file when one is open, then the callback when one is
        registered. */
    method WriteLog(t: Trace)
      modifies this`effects
      ensures effects == old(effects) + Routed(Routing(), t, line(t))
    {
      ghost var sinks := Routing();
      if console || t.kind == Traces.Debug {
        WriteConsole(t);
      }
      assert effects == old(effects) + ConsolePart(sinks, t, line(t));
      if fileOpen {
        var text := line(t);
        effects := effects + [FileWrite(text)];
        effects := effects + [FileWrite("\n")];
      }
      assert effects == old(effects) + ConsolePart(sinks, t, line(t)) + FilePart(sinks, line(t));
      if onLog {
        effects := effects + [Callback(t)];
      }
      RoutedParts(old(effects), sinks, t, line(t));
    }

    /** logRoutine: takes the buffered traces in order and routes each one;
        it stops for good when the channel is gone and would otherwise wait
        for the next trace. */
    method LogRoutine() returns (stopped: bool)
      requires Valid()
      modifies this`queue, this`effects
      ensures Valid()
      ensures queue == []
      ensures effects == old(effects) + Dispatch(Routing(), line, old(queue))
      ensures stopped <==> !started
    {
      ghost var sinks := Routing();
      while queue != []
        invariant Valid()
        invariant Routing() == sinks
        invariant effects + Dispatch(sinks, line, queue) == old(effects) + Dispatch(sinks, line, old(queue))
        decreases |queue|
      {
        ghost var before, pending := effects, queue;
        var t := queue[0];
        queue := queue[1..];
        WriteLog(t);
        ConsumeStep(before, sinks, line, pending);
      }
      stopped := !started;
    }
  }
}

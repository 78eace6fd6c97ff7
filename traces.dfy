/** The trace value the logger queues, and the pure pieces of log.go that
    build and print one: the caller's function-name extraction (getCaller),
    the console colour per kind (writeConsole) and the one-line text form
    (asString). */
module Traces {
  import opened Strings

  datatype Option<T> = None | Some(value: T)

  /** The kind of a trace; Go keeps it as one of five fixed strings. */
  datatype Kind = Assert | Error | Debug | Info | Warning

  /** The string constants strAssert, strError, strDebug, strInfo and strWarning. */
  function KindName(k: Kind): (name: string)
    ensures name != [] && ']' !in name
  {
    match k
    case Assert => "assert"
    case Error => "error"
    case Debug => "debug"
    case Info => "info"
    case Warning => "warning"
  }

  /** Recognises the kind whose name, closed by `]`, starts `s`. */
  function KindAt(s: string): Option<Kind>
  {
    if KindName(Assert) + "]" <= s then Some(Assert)
    else if KindName(Error) + "]" <= s then Some(Error)
    else if KindName(Debug) + "]" <= s then Some(Debug)
    else if KindName(Info) + "]" <= s then Some(Info)
    else if KindName(Warning) + "]" <= s then Some(Warning)
    else None
  }

  /** A kind printed as `name]` is read back as that kind, whatever follows. */
  lemma KindAtName(k: Kind, rest: string)
    ensures KindAt(KindName(k) + "]" + rest) == Some(k)
  {
    var s := KindName(k) + "]" + rest;
    assert KindName(k) + "]" <= s;
    match k
    case Assert =>
    case Error =>
      assert s[0] == 'e';
    case Debug =>
      assert s[0] == 'd';
    case Info =>
      assert s[0] == 'i';
    case Warning =>
      assert s[0] == 'w';
  }

  /** A Go `error` value; only the text of its Error() method is observable. */
  datatype Err = Err(message: string)

  /** Where a trace was raised: source file base name, line and bare function name. */
  datatype Caller = Caller(line: int, func: string, file: string)

  /** The calendar fields of a time.Time that asString prints. */
  datatype Time = Time(year: int, month: int, day: int, hour: int, minute: int, second: int)

  /** What runtime.Caller(2) and runtime.FuncForPC report about the code
      that called the logger: whether the frame was found, the function's
      full name when one is known, filepath.Base of the file, and the line. */
  datatype CallSite = CallSite(ok: bool, funcName: Option<string>, fileBase: string, line: int)

  /** What the Go runtime supplies while a trace is built: time.Now(), the
      call site and the runtime.Stack text. */
  datatype Context = Context(now: Time, site: CallSite, stack: string)
  {
    /** getCaller(2): the caller every trace built in this context records. */
    function ResolvedCaller(): Caller
    {
      GetCaller(site.ok, site.funcName, site.fileBase, site.line)
    }
  }

  /** One logged event (the Go struct Trace). The payload holds one text per
      argument; how sliceAsString joins them is not part of this model. */
  datatype Trace = Trace(
    kind: Kind,
    build: string,
    data: seq<string>,
    stack: string,
    time: Time,
    caller: Caller,
    error: Option<Err>)

  /** The name-selection step of getCaller: split the runtime function name on
      `.` and keep the last piece when there are one to four pieces, otherwise
      keep the whole name. */
  function FunctionName(name: string): (f: string)
  {
    SelectName(Split(name, '.'), name)
  }

  /** The if-chain of getCaller over the pieces of `name`. */
  function SelectName(names: seq<string>, name: string): string
  {
    if |names| == 1 then names[0]
    else if |names| == 2 then names[1]
    else if |names| == 3 then names[2]
    else if |names| == 4 then names[3]
    else name
  }

  /** With one to four pieces the chain picks the last piece; with more it
      keeps the whole name. */
  lemma SelectNameLast(names: seq<string>, name: string)
    ensures 1 <= |names| <= 4 ==> SelectName(names, name) == names[|names| - 1]
    ensures |names| > 4 ==> SelectName(names, name) == name
  {
  }

  /** With at most three dots the function name is exactly the text after the
      last dot (the whole name when there is none); with four or more dots the
      name is kept whole. */
  lemma FunctionNameIsLastSegment(name: string)
    ensures var f := FunctionName(name);
      && (Count(name, '.') <= 3 ==>
            && '.' !in f
            && |f| <= |name| && name[|name| - |f|..] == f
            && (f == name || name[|name| - |f| - 1] == '.'))
      && (Count(name, '.') >= 4 ==> f == name)
  {
    var names := Split(name, '.');
    SelectNameLast(names, name);
    if Count(name, '.') <= 3 {
      assert '.' !in names[|names| - 1];
      SplitLast(name, '.');
    }
  }

  /** getCaller: `ok` and `funcName` are what runtime.Caller and
      runtime.FuncForPC report (None when no function is found) and
      `fileBase` is filepath.Base of the reported file. An unresolved caller
      gets an empty function name. */
  function GetCaller(ok: bool, funcName: Option<string>, fileBase: string, line: int): (c: Caller)
    ensures c.file == fileBase && c.line == line
    ensures !ok || funcName.None? ==> c.func == ""
    ensures ok && funcName.Some? ==> c.func == FunctionName(funcName.value)
  {
    var func := if ok && funcName.Some? then FunctionName(funcName.value) else "";
    Caller(line, func, fileBase)
  }

  /** The foreground colours writeConsole sets. */
  datatype Colour = FgHiMagenta | FgHiYellow | FgHiCyan | FgHiRed

  /** The colour writeConsole sets before printing a trace of kind `k`;
      assert traces are printed without setting one. */
  function ConsoleColour(k: Kind): (c: Option<Colour>)
    ensures c.None? <==> k == Assert
    ensures c == Some(FgHiMagenta) <==> k == Debug
    ensures c == Some(FgHiYellow) <==> k == Warning
    ensures c == Some(FgHiCyan) <==> k == Info
    ensures c == Some(FgHiRed) <==> k == Error
  {
    match k
    case Debug => Some(FgHiMagenta)
    case Warning => Some(FgHiYellow)
    case Info => Some(FgHiCyan)
    case Error => Some(FgHiRed)
    case Assert => None
  }

  /** The ranges time.Time keeps its calendar fields in, with a four-digit year. */
  predicate ValidTime(t: Time)
  {
    && 0 <= t.year <= 9999 && 1 <= t.month <= 12 && 1 <= t.day <= 31
    && 0 <= t.hour <= 23 && 0 <= t.minute <= 59 && 0 <= t.second <= 59
  }

  /** The `%02d/%02d/%04d %02d:%02d:%02d` stamp that opens every line. */
  function DateStamp(t: Time): string
  {
    ZeroPad(t.month, 2) + "/" + ZeroPad(t.day, 2) + "/" + ZeroPad(t.year, 4) + " " +
    ZeroPad(t.hour, 2) + ":" + ZeroPad(t.minute, 2) + ":" + ZeroPad(t.second, 2)
  }

  /** Reads an `MM/DD/YYYY HH:MM:SS` stamp at the start of `s`. */
  function ParseDateStamp(s: string): Option<Time>
  {
    if |s| >= 19 && s[2] == '/' && s[5] == '/' && s[10] == ' ' && s[13] == ':' && s[16] == ':'
       && AllDigits(s[0..2], 10) && AllDigits(s[3..5], 10) && AllDigits(s[6..10], 10)
       && AllDigits(s[11..13], 10) && AllDigits(s[14..16], 10) && AllDigits(s[17..19], 10)
    then
      Some(Time(ParseBase(s[6..10], 10), ParseBase(s[0..2], 10), ParseBase(s[3..5], 10),
                ParseBase(s[11..13], 10), ParseBase(s[14..16], 10), ParseBase(s[17..19], 10)))
    else None
  }

  /** The date stamp is 19 characters wide and, whatever follows it, reads back
      to the time it was printed from. */
  lemma DateStampRoundTrip(t: Time, rest: string)
    requires ValidTime(t)
    ensures |DateStamp(t)| == 19
    ensures ParseDateStamp(DateStamp(t) + rest) == Some(t)
  {
    assert Pow(10, 2) == 100 && Pow(10, 4) == 10000;
    var mo, d, y := ZeroPad(t.month, 2), ZeroPad(t.day, 2), ZeroPad(t.year, 4);
    var h, mi, se := ZeroPad(t.hour, 2), ZeroPad(t.minute, 2), ZeroPad(t.second, 2);
    ZeroPadField(t.month, 2);
    ZeroPadField(t.day, 2);
    ZeroPadField(t.year, 4);
    ZeroPadField(t.hour, 2);
    ZeroPadField(t.minute, 2);
    ZeroPadField(t.second, 2);
    StampLayout(mo, d, y, h, mi, se, rest);
  }

  /** Where each field of a date stamp sits, whatever the fields hold. */
  lemma StampLayout(mo: string, d: string, y: string, h: string, mi: string, se: string, rest: string)
    requires |mo| == 2 && |d| == 2 && |y| == 4 && |h| == 2 && |mi| == 2 && |se| == 2
    ensures var s := mo + "/" + d + "/" + y + " " + h + ":" + mi + ":" + se + rest;
      && |s| >= 19 && s[2] == '/' && s[5] == '/' && s[10] == ' ' && s[13] == ':' && s[16] == ':'
      && s[0..2] == mo && s[3..5] == d && s[6..10] == y
      && s[11..13] == h && s[14..16] == mi && s[17..19] == se
  {
    var t4 := mi + ":" + se + rest;
    var t3 := h + ":" + t4;
    var s := mo + "/" + d + "/" + y + " " + t3;
    assert s == mo + "/" + d + "/" + y + " " + h + ":" + mi + ":" + se + rest;
    assert s[11..] == t3;
    assert t3[0..2] == h && t3[3..] == t4;
    assert t4[0..2] == mi && t4[3..5] == se;
  }

  /** asString's `source` field: build, process id, file, line and function. */
  function Source(t: Trace, pid: int): string
  {
    t.build + "(" + Decimal(pid) + "): " + t.caller.file + "(" + Decimal(t.caller.line) + "): " + t.caller.func
  }

  /** What asString puts in front of the payload: the error's text and `: `
      when the trace carries an error, nothing otherwise. */
  function ErrorPrefix(t: Trace): string
  {
    if t.error.Some? then t.error.value.message + ": " else ""
  }

  /** Everything asString writes before the message. */
  function Header(t: Trace, pid: int): string
  {
    DateStamp(t.time) + ": [" + KindName(t.kind) + "] " + Source(t, pid) + ": "
  }

  /** asString's text for `t`; `payload` is sliceAsString(t.data) and `pid`
      the process id. */
  function AsString(t: Trace, pid: int, payload: string): string
  {
    WithMessage(Header(t, pid), t, payload)
  }

  /** A header followed by the message: the error's text and `: ` when the
      trace carries an error, then the payload. Whatever the header, the line
      ends with the payload and the error text sits right before it. */
  function WithMessage(head: string, t: Trace, payload: string): (r: string)
    ensures |head| + |payload| <= |r| && r[..|head|] == head
    ensures r[|r| - |payload|..] == payload
    ensures t.error.None? ==> |r| == |head| + |payload|
    ensures t.error.Some? ==>
      var e := t.error.value.message + ": ";
      && |r| == |head| + |e| + |payload|
      && r[|r| - |payload| - |e|..|r| - |payload|] == e
  {
    var e := ErrorPrefix(t);
    var r := head + (e + payload);
    assert r[|r| - |payload|..] == (e + payload)[|e|..];
    r
  }

  /** Reads the time and the kind back from the front of a printed trace. */
  function ParseHeader(line: string): Option<(Time, Kind)>
  {
    match ParseDateStamp(line)
    case None => None
    case Some(time) =>
      if |line| >= 22 && line[19..22] == ": [" then
        match KindAt(line[22..])
        case None => None
        case Some(kind) => Some((time, kind))
      else None
  }

  /** Every printed trace with a well-formed time starts with a header that
      gives back its time and its kind. */
  lemma AsStringHeader(t: Trace, pid: int, payload: string)
    requires ValidTime(t.time)
    ensures ParseHeader(AsString(t, pid, payload)) == Some((t.time, t.kind))
  {
    HeaderOf(t.time, t.kind, Source(t, pid), ErrorPrefix(t) + payload);
  }

  /** The header of any line laid out as asString lays it out. */
  lemma HeaderOf(time: Time, k: Kind, source: string, message: string)
    requires ValidTime(time)
    ensures ParseHeader(DateStamp(time) + ": [" + KindName(k) + "] " + source + ": " + message)
         == Some((time, k))
  {
    var rest := " " + source + ": " + message;
    var tail := ": [" + (KindName(k) + "]" + rest);
    DateStampRoundTrip(time, tail);
    LineLayout(DateStamp(time), KindName(k), source, message);
    KindAtName(k, rest);
  }

  /** Where the pieces of an asString line sit behind a 19-character stamp. */
  lemma LineLayout(stamp: string, name: string, source: string, message: string)
    requires |stamp| == 19
    ensures var line := stamp + ": [" + name + "] " + source + ": " + message;
      var rest := " " + source + ": " + message;
      && line == stamp + (": [" + (name + "]" + rest))
      && line[19..22] == ": [" && line[22..] == name + "]" + rest
  {
  }
}

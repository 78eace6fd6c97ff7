# log: the trace pipeline and the CSV writer, in Dafny

The Go package `log` of stevenb256/log is a process-wide logger. `StartLog`
opens an optional log file and allocates a trace channel that holds up to
100 traces. The producers `Warning`, `Info` and `Debug` each queue one
`Trace`; `Check` and `Fail` queue one only when their error is not nil. A consumer goroutine (`logRoutine`) takes the traces
in order and hands each one to `writeLog`. `writeLog` prints the trace to
the console (in a colour chosen by its kind) when console output is on or
the trace is a debug trace, writes it to the file when one is open, and then
passes it to the callback when one is registered. The console and the file
receive the same one-line text, built by `asString`:
`MM/DD/YYYY HH:MM:SS: [kind] build(pid): file(line): function: message`.
The callback receives the trace itself.
When its condition is false, `Assert` closes the logger and panics with
that line; a true condition does nothing. `CloseLog` drops the
channel and closes the file.

`CSVLog` (csv.go) writes tab-separated rows to a file. Each value is
rendered by its Go type. Any type it does not handle trips `Assert`.

The model has four modules:

- `Strings`: Go's `%d`, `%0Nd` and `%x` integer formatting, `strings.Split`
  and `strings.Join` on a one-character separator, and the parsers that
  undo them.
- `Traces`: the `Trace` value, the trace kinds, the caller's function-name
  extraction, the console colour of each kind, and the `asString` line.
- `Log`: the globals as one `Logger` object. Its methods change the queue,
  the flags and a record of every effect on stdout, the file and the
  callback. Beside it sit the specification functions `Routed` and
  `Dispatch`, and lemmas that project the effects onto each sink.
- `Csv`: the `Value` sum type, the rendering of one value, and the `CSVLog`
  class.

Values the Go runtime supplies are inputs to the model:

- `time.Now`, `runtime.Caller`, `runtime.FuncForPC`, `filepath.Base` and
  `runtime.Stack` are parameters, packed into a `Context`. Its `CallSite`
  holds what runtime.Caller(2) and FuncForPC report, and every producer
  records `ResolvedCaller()`, which is getCaller's extraction applied to
  that call site.
- The process id is the `Logger`'s `pid`.
- The outcome of `os.OpenFile` is an `openError` parameter.
- `sliceAsString`, which renders a payload, is the `Logger`'s `render`
  function. The model does not look inside it.

## Model

| member | source | states |
|---|---|---|
| Log.Logger.Check | log.go:62-76 | Returns true exactly when the error is non-nil. It then queues exactly one error trace carrying the error, the data, the build, the caller and the stack. On nil the queue is unchanged. |
| Log.Logger.Fail | log.go:79-92 | Returns the error unchanged in all cases. It queues one error trace only when the error is non-nil. |
| Log.Logger.Assert | log.go:95-108 | A true condition changes nothing. A false one closes the logger (no channel, no file, a FileClosed effect iff a file was open) without queueing anything, and panics with the asString line of an assert trace whose build is `<assert>`. |
| Log.Logger.Warning | log.go:111-119 | Appends exactly one warning trace with an empty stack to the back of the queue. |
| Log.Logger.Info | log.go:122-130 | Appends exactly one info trace with an empty stack to the back of the queue. |
| Log.Logger.Debug | log.go:133-142 | Appends exactly one debug trace, with the captured stack, to the back of the queue. |
| Log.Logger.Send | log.go:64 | A send appends the trace at the back of a started, non-full queue and keeps the queue within capacity. |
| Log.Logger.StartLog | log.go:145-169 | Once started, it returns success and changes nothing. A failed open returns the error and leaves the logger unstarted with its globals untouched. Otherwise it starts with an empty queue and the given build, console flag and callback, and opens a file only for a non-empty path. |
| Log.Logger.OpenLogFile | log.go:196-204 | An empty path opens nothing and succeeds. A failed open returns the error with no file. A successful open records a truncating FileOpened effect. |
| Log.Logger.CloseLog | log.go:184-193 | Afterwards the channel and the file are gone and the queue is empty. The file is closed iff it was open. A second call changes nothing. |
| Log.Logger.constructor | log.go:55-59 | All globals start at their zero values. The console and the file receive asString of a trace; the callback receives the trace itself. |
| Log.Logger.LogRoutine | log.go:173-181 | Empties the queue. The effects gained are exactly Dispatch of the old queue, taken head first. It reports stopping iff the channel is gone. |
| Log.Logger.WriteLog | log.go:208-219 | Appends exactly Routed for the current console flag, file and callback. |
| Log.Logger.WriteConsole | log.go:222-235 | Appends exactly ConsoleEffects of the trace's line. |
| Log.ConsoleEffects | log.go:222-235 | What writeConsole does with one trace: the kind's colour when it has one, the line, a newline, then an unset. Its shape is ConsoleEffectsShape. |
| Log.Routed | log.go:208-219 | What writeLog does with one trace: the console part, the file part and the callback part, in that order. What each sink gets is RoutedProjections. |
| Log.Dispatch | log.go:173-181 | What logRoutine produces for a queue: Routed of each trace, head first. Its per-sink meaning is DispatchDelivers, DispatchFile and DispatchConsole. |
| Log.ConsoleEffectsShape | log.go:222-235 | Sets the kind's colour first when the kind has one. Then it writes the line and a newline and always unsets the colour; every effect is a console effect. |
| Log.RoutedOrder | log.go:208-219 | Console effects come before file effects, and file effects before the callback. |
| Log.RoutedProjections | log.go:208-219 | One trace reaches the console iff the console flag is set or it is a debug trace. It reaches the file iff a file is open, and the callback iff one is registered. The console and the file each get the line and a newline; the callback gets the trace itself. |
| Log.DispatchDelivers | log.go:173-181 | The callback receives every consumed trace exactly once, in queue order, when one is registered, and nothing otherwise. |
| Log.DispatchFile | log.go:173-181 | The file receives each consumed trace's line and a newline, in queue order, when a file is open, and nothing otherwise. |
| Log.DispatchConsole | log.go:173-181 | Stdout receives the line and a newline of exactly the traces shown on the console (all of them, or only the debug ones), in queue order. |
| Log.DispatchAppend | log.go:174-180 | Consuming two stretches of the queue one after the other is the same as consuming both at once. |
| Log.ConsumeStep | log.go:175-179 | Routing the head and then dispatching the rest is dispatching the whole queue. |
| Log.LinesAt | log.go:213-214 | The sink text has two entries per trace: its line at position 2i and a newline at 2i+1. |
| Log.ProjectionsAppend | log.go:208-219 | Each sink's view of a concatenation of effects is the concatenation of its views. |
| Traces.KindName | log.go:17-21 | Every kind name is non-empty and holds no `]`, so the bracketed kind in a line can be read back. |
| Traces.KindAtName | log.go:255 | A kind printed as `name]` is read back as that kind. |
| Traces.ConsoleColour | log.go:223-231 | Debug is magenta, warning yellow, info cyan and error red, each iff that kind. Only assert gets no colour. |
| Traces.FunctionName | log.go:275-286 | getCaller's name selection: split the runtime name on `.` and apply SelectName. Its meaning is FunctionNameIsLastSegment. |
| Traces.SelectName | log.go:276-286 | The if-chain on the number of pieces. Its meaning is SelectNameLast. |
| Traces.Context.ResolvedCaller | log.go:68 | The caller recorded in a trace is getCaller applied to the call site the runtime reports. |
| Traces.FunctionNameIsLastSegment | log.go:275-286 | With one to four `.`-separated parts, the name is the text after the last dot (or the whole name when there is no dot) and holds no dot. With more parts it is the whole runtime name. |
| Traces.SelectNameLast | log.go:276-286 | With one to four pieces the if-chain picks the last piece; with more it keeps the whole runtime name. |
| Traces.GetCaller | log.go:269-290 | The file and line are passed through. An unresolved caller or function gives an empty function name; a resolved one gives the extracted name. |
| Traces.DateStamp | log.go:255-257 | The `%02d/%02d/%04d %02d:%02d:%02d` stamp of a time. Its meaning is DateStampRoundTrip. |
| Traces.Source | log.go:248-250 | asString's `build(pid): file(line): function` field. |
| Traces.AsString | log.go:247-259 | The line every trace is printed as: its header, then the message. Its meaning is WithMessage and AsStringHeader. |
| Traces.DateStampRoundTrip | log.go:255-257 | For a valid time the `%02d/%02d/%04d %02d:%02d:%02d` stamp is 19 characters and reads back to the same time, whatever follows it. |
| Traces.WithMessage | log.go:251-255 | Whatever the header, the line starts with it and ends with the payload. Without an error nothing else lies between them. With an error, exactly the error's text and `: ` sit between them. |
| Traces.AsStringHeader | log.go:247-259 | Every line of a trace with a valid time starts with a header that reads back to the trace's time and kind. |
| Strings.Split | log.go:275 | Gives one more piece than there are separators, and no piece holds a separator. |
| Strings.JoinSplit | log.go:275 | Joining the pieces of a split restores the text. |
| Strings.SplitJoin | log.go:275 | Splitting a join of separator-free pieces gives the pieces back. |
| Strings.SplitLast | log.go:275 | The last piece of a split is the suffix after the last separator. |
| Strings.NatToBase | csv.go:47 | Writes a number as at least one digit of the base, with a leading zero only for zero. |
| Strings.ParseNatToBase | csv.go:47 | Digits written in any base from 2 to 16 read back to the number. |
| Strings.Decimal | log.go:248-250 | Go's `%d`: at least one character, starting with `-` exactly for a negative value. Its round trip is DecimalRoundTrip. |
| Strings.ZeroPad | log.go:255-257 | Go's `%0Nd`: zeros are inserted after any sign up to the width. Its meaning for the stamp's fields is ZeroPadField. |
| Strings.DecimalRoundTrip | log.go:248-250 | `%d` of any integer is an optional minus sign and digits, and reads back to the integer. |
| Strings.ZeroPadField | log.go:255 | `%0Nd` of a non-negative value below 10^N is exactly N digits and reads back to the value. |
| Strings.NatToBaseLength | log.go:255 | A number below base^k takes at most k digits. |
| Csv.Render | csv.go:43-61 | Nothing is rendered exactly for a type Write does not handle. Strings are written verbatim, and booleans as `true` iff true and `false` iff false. |
| Csv.RenderInteger | csv.go:46-51 | int, uint8, uint16 and uint32 values are written in decimal and read back unchanged. |
| Csv.RenderHex | csv.go:52-53 | A Hex32 is `0x` followed by lowercase hex digits without leading zeros, which read back to the value. |
| Csv.RenderHexExample | csv.go:52-53 | 42 is written `0x2a`. |
| Csv.Milliseconds | csv.go:59 | time.Duration.Milliseconds truncates toward zero: the result is within one millisecond of the duration, on the side of zero. |
| Csv.RenderDuration | csv.go:58-59 | A duration is its whole milliseconds, truncated toward zero, followed by ` ms`. The number read back lies within one millisecond of the duration, on the side of zero. |
| Csv.FirstUnsupported | csv.go:42-62 | The index of the first value Write cannot render, or the row length when there is none. |
| Csv.RowOutput | csv.go:42-67 | Everything Write emits for a row on an open file: the cells up to the first value it cannot render, and the newline only when it gets past the last value. Its meaning is RowFields. |
| Csv.RowFields | csv.go:42-67 | An empty row is a lone newline. A row of n values is the n texts joined by tabs, with no trailing tab, plus one newline. When no text holds a tab, splitting the line gives the texts back and the line holds exactly n-1 tabs. |
| Csv.CellsJoin | csv.go:42-66 | The first k cells are the first k texts joined by tabs, plus the tab that separates them from the next value when there is one. |
| Csv.RenderRow | csv.go:42-66 | The loop stops exactly at the first value Write cannot render (or after the last value), having emitted exactly the cells before it. |
| Csv.CSVLog.constructor | csv.go:19-20 | A new CSV log is open iff the file was opened, and its truncated file is empty. |
| Csv.CSVLog.Close | csv.go:29-36 | Afterwards the file is absent. Closing a closed log changes nothing. |
| Csv.CSVLog.Write | csv.go:39-70 | On a closed log nothing is written and the logger is untouched. On an open log the file gains exactly RowOutput of the row. A row Write can render leaves the logger untouched. Otherwise the logger is closed and the panic carries the assert line of the first unhandled value. |
| Csv.OpenCSV | csv.go:17-26 | A failed open is reported through Check (one error trace queued) and returns no log with the error. Otherwise a fresh open log is returned whose file holds the header row; when a header cannot be rendered, the Assert in Write closes the logger (its queue dropped, the file closed if it was open) and the panic carries the assert line naming the first such header. |

## Left out

- Concurrency. The goroutine started at log.go:165, the channel and the mutex in csv.go are not modelled. `LogRoutine` is a method the caller runs between producer calls, and the channel is a sequence.
- Log.Logger.Send: a send on a full channel waits until `logRoutine` takes a trace. The model's consumer runs only between producer calls, so the model requires room in the queue. A send on the nil channel, before `StartLog` or after `CloseLog`, blocks for ever, so the model requires a started logger. Both requires hold on every path that sends.
- Log.Logger.CloseLog: traces still buffered when the logger closes are dropped and never reach any sink. The consumer's next receive reads the global channel, which is then nil. The logger does not drain the queue before closing, and the model does not promise it. A consumer that had already taken a trace before the close could still print it to the console or pass it to the callback; that race is not modelled.
- Log.Logger.Assert: the code does not write the assert trace to any sink. It closes the logger and panics with the line. The panic is the returned `panicMessage`, and the caller's unwinding is not modelled.
- Real I/O. os.OpenFile, WriteString, os.Stdout, the file close and the colour library are recorded as `Effect` values. Their failures are not modelled, except the open error.
- sliceAsString is not part of this model. The payload is one opaque text per argument, and the `Logger`'s `render` turns it into the message.
- Runtime values. time.Now, runtime.Caller, runtime.FuncForPC, filepath.Base, runtime.Stack and syscall.Getpid are inputs; their own behaviour is not modelled.
- asJSON, Dbg and _f (log.go:27-34, 237-244) are formatting wrappers that the pipeline does not use. The commented-out logging client (log.go:292-345) is not code.
- Traces.DateStampRoundTrip: the round trip is stated only for years 0 to 9999 and the usual calendar ranges. Go prints other years in more digits or with a sign.
- Csv.Value: Hex32 is declared in neither csv.go nor log.go. It is taken to be an unsigned 32-bit value, so `%#x` of it never shows a sign.
- Csv.Value: Go's `int` is unbounded here. Its 64-bit width only limits which values exist and does not change how they print.
- Csv.CSVLog.Write: after the panic, Go leaves the mutex locked. The model returns the panic message and does not model the lock.
- Csv.OpenCSV: in Go the panic of a header row with an unhandled value unwinds out of OpenCSV. The model returns the new log together with the panic message.

/** The tab-separated table writer of csv.go: a CSVLog owns one file and
    appends one line per row, rendering each value by its Go type. */
module Csv {
  import opened Strings
  import opened Traces
  import Log

  type Uint8 = x: int | 0 <= x < 0x100
  type Uint16 = x: int | 0 <= x < 0x1_0000
  type Uint32 = x: int | 0 <= x < 0x1_0000_0000

  /** A row value, by its Go type. `Hex32` is the package's hexadecimal
      wrapper, taken here to be a 32-bit unsigned integer. `Other` is a value
      of any other type, carried as the text the logger shows for it. */
  datatype Value =
    | Str(s: string)
    | Int(i: int)
    | U8(u8: Uint8)
    | U32(u32: Uint32)
    | Hex32(h: Uint32)
    | U16(u16: Uint16)
    | Bool(b: bool)
    | Duration(nanos: int)
    | Other(shown: string)

  /** time.Duration.Milliseconds: nanoseconds divided by a million, truncated toward zero. */
  function Milliseconds(nanos: int): (ms: int)
    ensures nanos >= 0 ==> 0 <= ms * 1_000_000 <= nanos < (ms + 1) * 1_000_000
    ensures nanos < 0 ==> (ms - 1) * 1_000_000 < nanos <= ms * 1_000_000 <= 0
  {
    if nanos >= 0 then nanos / 1_000_000 else -((-nanos) / 1_000_000)
  }

  /** The text Write puts in the file for one value, or None for a value of a
      type Write does not handle. */
  function Render(v: Value): (r: Option<string>)
    ensures r.None? <==> v.Other?
    ensures v.Str? ==> r == Some(v.s)
    ensures v.Bool? ==> r.Some? && (r.value == "true" <==> v.b) && (r.value == "false" <==> !v.b)
  {
    match v
    case Str(s) => Some(s)
    case Int(i) => Some(Decimal(i))
    case U8(u) => Some(Decimal(u))
    case U32(u) => Some(Decimal(u))
    case Hex32(h) => Some("0x" + NatToBase(h, 16))
    case U16(u) => Some(Decimal(u))
    case Bool(b) => Some(if b then "true" else "false")
    case Duration(n) => Some(Decimal(Milliseconds(n)) + " ms")
    case Other(_) => None
  }

  /** The integer an integer-typed value holds. */
  function IntegerOf(v: Value): Option<int>
  {
    match v
    case Int(i) => Some(i)
    case U8(u) => Some(u)
    case U16(u) => Some(u)
    case U32(u) => Some(u)
    case _ => None
  }

  /** Integers of every width are written in decimal and read back unchanged. */
  lemma RenderInteger(v: Value)
    requires IntegerOf(v).Some?
    ensures var r := Render(v).value;
      && r != []
      && (r[0] == '-' ==> AllDigits(r[1..], 10))
      && (r[0] != '-' ==> AllDigits(r, 10))
      && ParseDecimal(r) == IntegerOf(v).value
  {
    DecimalRoundTrip(IntegerOf(v).value);
  }

  /** A Hex32 is written as `0x` and lowercase hexadecimal digits without
      leading zeros, which read back to the value. */
  lemma RenderHex(h: Uint32)
    ensures var r := Render(Hex32(h)).value;
      && |r| >= 3 && r[..2] == "0x"
      && AllDigits(r[2..], 16)
      && (r[2] == '0' <==> h == 0)
      && ParseBase(r[2..], 16) == h
  {
    var r := Render(Hex32(h)).value;
    assert r[2..] == NatToBase(h, 16);
    ParseNatToBase(h, 16);
  }

  /** The value 42 is written `0x2a`. */
  lemma RenderHexExample()
    ensures Render(Hex32(42)) == Some("0x2a")
  {
    assert NatToBase(2, 16) == "2";
    assert Digit(10) == 'a';
    assert NatToBase(42, 16) == NatToBase(2, 16) + [Digit(10)] == "2a";
    assert "0x" + "2a" == "0x2a";
  }

  /** A duration is written as its whole milliseconds, truncated toward zero,
      followed by ` ms`. */
  lemma RenderDuration(nanos: int)
    ensures var r := Render(Duration(nanos)).value;
      var ms := Milliseconds(nanos);
      && |r| > 3 && r[|r| - 3..] == " ms"
      && ParseDecimal(r[..|r| - 3]) == ms
      && (nanos >= 0 ==> 0 <= ms * 1_000_000 <= nanos < (ms + 1) * 1_000_000)
      && (nanos < 0 ==> (ms - 1) * 1_000_000 < nanos <= ms * 1_000_000 <= 0)
  {
    var r := Render(Duration(nanos)).value;
    var ms := Milliseconds(nanos);
    assert r[..|r| - 3] == Decimal(ms);
    DecimalRoundTrip(ms);
  }

  predicate Supported(row: seq<Value>, k: nat)
    requires k <= |row|
  {
    forall j :: 0 <= j < k ==> !row[j].Other?
  }

  /** The index of the first value Write cannot render, or |row| when there is none. */
  function FirstUnsupported(row: seq<Value>): (k: nat)
    ensures k <= |row| && Supported(row, k)
    ensures k < |row| ==> row[k].Other?
  {
    if row == [] then 0
    else if row[0].Other? then 0
    else
      var k := 1 + FirstUnsupported(row[1..]);
      assert forall j :: 1 <= j < k ==> row[j] == row[1..][j - 1];
      k
  }

  /** The first value Write cannot render is the one after the supported prefix. */
  lemma FirstUnsupportedAt(row: seq<Value>, i: nat)
    requires i < |row| && Supported(row, i) && row[i].Other?
    ensures FirstUnsupported(row) == i
  {
  }

  /** What Write emits for the value at `j`: its text, then a tab unless it is the last value. */
  function Cell(row: seq<Value>, j: nat): string
    requires j < |row| && !row[j].Other?
  {
    Render(row[j]).value + (if j < |row| - 1 then "\t" else "")
  }

  /** What Write emits for the first `k` values. */
  function Cells(row: seq<Value>, k: nat): string
    requires k <= |row| && Supported(row, k)
  {
    if k == 0 then "" else Cells(row, k - 1) + Cell(row, k - 1)
  }

  /** One more supported value adds its cell: its text, then a tab unless it is the last. */
  lemma CellsStep(row: seq<Value>, i: nat)
    requires i < |row| && Supported(row, i) && !row[i].Other?
    ensures Supported(row, i + 1)
    ensures Cells(row, i + 1) == Cells(row, i) + Render(row[i]).value + (if i < |row| - 1 then "\t" else "")
  {
  }

  /** Everything Write emits for a row on an open file: the cells up to the
      first value it cannot render, and the closing newline only if it gets
      past the last value. */
  function RowOutput(row: seq<Value>): string
  {
    var k := FirstUnsupported(row);
    Cells(row, k) + (if k == |row| then "\n" else "")
  }

  /** The texts of the values of a fully supported row. */
  function Fields(row: seq<Value>): (fields: seq<string>)
    requires Supported(row, |row|)
    ensures |fields| == |row|
  {
    seq(|row|, j requires 0 <= j < |row| => Render(row[j]).value)
  }

  /** Cells of a supported prefix are its fields joined by tabs, with the tab
      that separates them from the next value when there is one. */
  lemma {:induction false} CellsJoin(row: seq<Value>, k: nat)
    requires 1 <= k <= |row| && Supported(row, |row|)
    ensures Cells(row, k) == Join(Fields(row)[..k], '\t') + (if k < |row| then "\t" else "")
    decreases k
  {
    var fields := Fields(row);
    if k == 1 {
      assert Cells(row, 0) == "";
      assert fields[..1] == [fields[0]];
    } else {
      CellsJoin(row, k - 1);
      assert fields[..k] == fields[..k - 1] + [fields[k - 1]];
      JoinSnoc(fields[..k - 1], fields[k - 1], '\t');
    }
  }

  lemma {:induction false} JoinSnoc(parts: seq<string>, last: string, sep: char)
    requires |parts| >= 1
    ensures Join(parts + [last], sep) == Join(parts, sep) + [sep] + last
    decreases |parts|
  {
    if |parts| == 1 {
      assert parts + [last] == [parts[0], last];
      assert [parts[0], last][1..] == [last];
    } else {
      assert (parts + [last])[1..] == parts[1..] + [last];
      JoinSnoc(parts[1..], last, sep);
    }
  }

  /** A row of n >= 1 supported values is its n texts separated by tabs, with
      no tab after the last, and one newline at the end; when no text holds a
      tab, splitting the line on tabs gives the texts back, so the line holds
      exactly n - 1 tabs. An empty row is a lone newline. */
  lemma RowFields(row: seq<Value>)
    requires Supported(row, |row|)
    ensures row == [] ==> RowOutput(row) == "\n"
    ensures row != [] ==> RowOutput(row) == Join(Fields(row), '\t') + "\n"
    ensures row != [] && (forall j :: 0 <= j < |row| ==> '\t' !in Fields(row)[j]) ==>
      && Split(RowOutput(row)[..|RowOutput(row)| - 1], '\t') == Fields(row)
      && Count(RowOutput(row), '\t') == |row| - 1
  {
    var k := FirstUnsupported(row);
    assert k == |row|;
    if row != [] {
      var fields := Fields(row);
      CellsJoin(row, |row|);
      assert fields[..|row|] == fields;
      var line := Join(fields, '\t');
      assert RowOutput(row)[..|RowOutput(row)| - 1] == line;
      if forall j :: 0 <= j < |row| ==> '\t' !in fields[j] {
        SplitJoin(fields, '\t');
        CountAppend(line, "\n", '\t');
      }
    }
  }

  lemma {:induction false} CountAppend(a: string, b: string, c: char)
    ensures Count(a + b, c) == Count(a, c) + Count(b, c)
    decreases |a|
  {
    if a == [] {
      assert a + b == b;
    } else {
      assert (a + b)[0] == a[0] && (a + b)[1..] == a[1..] + b;
      CountAppend(a[1..], b, c);
    }
  }

  /** A CSV log: whether its file is open (`file != nil`) and what has been
      written to that file. */
  class CSVLog {
    const path: string
    var open: bool
    var text: string

    /** `new(CSVLog)` with the result of os.OpenFile, which truncates the file. */
    constructor(path: string, open: bool)
      ensures this.path == path && this.open == open && text == ""
    {
      this.path, this.open, text := path, open, "";
    }

    /** Close: drops the file; closing again changes nothing. */
    method Close()
      modifies this`open
      ensures !open
      ensures !old(open) ==> unchanged(this)
    {
      if open {
        open := false;
      }
    }

    /** Write: on an open file, each value's text followed by a tab unless it
        is the last, then a newline. A value of a type Write does not handle
        trips Assert(false, v): the logger is closed and the panic message is
        returned; nothing more of the row is written. On a closed file
        nothing happens. */
    method Write(row: seq<Value>, log: Log.Logger, ctx: Context) returns (panicMessage: Option<string>)
      requires log.Valid()
      modifies this`text, log`started, log`queue, log`fileOpen, log`effects
      ensures log.Valid()
      ensures !open ==> panicMessage.None? && text == old(text) && unchanged(log)
      ensures open ==> text == old(text) + RowOutput(row)
      ensures open && FirstUnsupported(row) == |row| ==> panicMessage.None? && unchanged(log)
      ensures open && FirstUnsupported(row) < |row| ==>
        var v := row[FirstUnsupported(row)];
        && !log.started && !log.fileOpen && log.queue == []
        && log.effects == old(log.effects) + (if old(log.fileOpen) then [Log.FileClosed] else [])
        && panicMessage == Some(log.line(Trace(Assert, "<assert>", [v.shown], ctx.stack, ctx.now, ctx.ResolvedCaller(), None)))
    {
      panicMessage := None;
      if !open {
        return;
      }
      var cells, k := RenderRow(row);
      text := text + cells;
      if k < |row| {
        panicMessage := log.Assert(false, [row[k].shown], ctx);
        return;
      }
      text := text + "\n";
    }
  }

  /** The loop of Write: renders the values in order, each followed by a tab
      unless it is the last, and stops at the first value it cannot render.
      `k` is where it stopped: that value's index, or |row| when it rendered
      them all. */
  method RenderRow(row: seq<Value>) returns (cells: string, k: nat)
    ensures k == FirstUnsupported(row)
    ensures cells == Cells(row, k)
  {
    cells := "";
    k := 0;
    while k < |row|
      invariant 0 <= k <= |row| && Supported(row, k)
      invariant cells == Cells(row, k)
    {
      match Render(row[k]) {
        case None =>
          FirstUnsupportedAt(row, k);
          return;
        case Some(field) =>
          cells := cells + field;
      }
      if k < |row| - 1 {
        cells := cells + "\t";
      }
      CellsStep(row, k);
      k := k + 1;
    }
  }

  /** OpenCSV: a file that cannot be opened is reported through Check and no
      log is returned; otherwise the headers are written as the first row. */
  method OpenCSV(path: string, headers: seq<Value>, openError: Option<Err>, log: Log.Logger, ctx: Context)
    returns (c: CSVLog?, err: Option<Err>, panicMessage: Option<string>)
    requires log.Valid()
    requires openError.Some? ==> log.started && |log.queue| < Log.Capacity
    modifies log`started, log`queue, log`fileOpen, log`effects
    ensures log.Valid()
    ensures openError.Some? ==>
      && c == null && err == openError && panicMessage.None?
      && log.queue == old(log.queue) + [Trace(Error, log.build, [], ctx.stack, ctx.now, ctx.ResolvedCaller(), openError)]
      && log.started == old(log.started) && log.fileOpen == old(log.fileOpen) && log.effects == old(log.effects)
    ensures openError.None? ==>
      && c != null && fresh(c) && err.None?
      && c.path == path && c.open && c.text == RowOutput(headers)
      && (FirstUnsupported(headers) == |headers| ==> panicMessage.None? && unchanged(log))
    ensures openError.None? && FirstUnsupported(headers) < |headers| ==>
      var v := headers[FirstUnsupported(headers)];
      && !log.started && !log.fileOpen && log.queue == []
      && log.effects == old(log.effects) + (if old(log.fileOpen) then [Log.FileClosed] else [])
      && panicMessage == Some(log.line(Trace(Assert, "<assert>", [v.shown], ctx.stack, ctx.now, ctx.ResolvedCaller(), None)))
  {
    panicMessage := None;
    var created := new CSVLog(path, openError.None?);
    var failed := log.Check(openError, [], ctx);
    if failed {
      return null, openError, None;
    }
    assert log.queue == old(log.queue);
    panicMessage := created.Write(headers, log, ctx);
    assert created.text == "" + RowOutput(headers);
    return created, None, panicMessage;
  }
}

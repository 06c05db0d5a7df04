/** The device end of the UART protocol: examples/stm32_uart_protocol/stm32_uart_protocol.c. */
module UartDevice {
  import opened Options
  import opened Numbers

  const LINE_SIZE: nat := 128

  const LF: char := '\n'
  const CR: char := '\r'

  predicate Printable(c: char) {
    ' ' <= c <= '~'
  }

  predicate AllPrintable(s: string) {
    forall i :: 0 <= i < |s| ==> Printable(s[i])
  }

  // ---------------------------------------------------------------- requests

  /** What the board's callbacks answer while one request is handled. */
  datatype Answers = Answers(setLed: int, getLed: int, uptime: Uint32)

  const HEARTBEAT := "HEARTBEAT "

  /** What `stm32_uart_protocol_handle` has to say to a request. */
  function Handle(request: string, a: Answers): (reply: string)
    ensures 0 < |reply| < LINE_SIZE
    ensures reply[|reply| - 1] == LF && AllPrintable(reply[..|reply| - 1])
  {
    if |request| >= LINE_SIZE then "ERR LINE_TOO_LONG\n"
    else if request == "PING" then "PONG\n"
    else if request == "STATUS" then
      if a.getLed != 0 && a.getLed != 1 then "ERR DEVICE\n" else StatusReply(a.getLed, a.uptime)
    else if request == "LED ON" || request == "LED OFF" then
      var enabled := if request == "LED ON" then 1 else 0;
      if a.setLed != 0 || a.getLed != enabled then "ERR DEVICE\n"
      else if enabled == 1 then "OK LED=1\n" else "OK LED=0\n"
    else if HEARTBEAT <= request then
      match Parsed(request[10..])
      case None => "ERR ARGUMENT\n"
      case Some(n) => HeartbeatReply(n)
    else "ERR COMMAND\n"
  }

  /** `stm32_uart_protocol_handle`: it fails without all its callbacks, and when the reply and its
      NUL do not fit a buffer of `size` bytes. */
  method HandleInto(complete: bool, request: string, a: Answers, size: nat) returns (r: Option<string>)
    ensures r == if complete && |Handle(request, a)| < size then Some(Handle(request, a)) else None
    ensures complete && size >= LINE_SIZE ==> r.Some?
  {
    hide Handle;
    if !complete || size == 0 {
      return None;
    }
    var text := Handle(request, a);
    if |text| >= size {
      return None;
    }
    r := Some(text);
  }

  function StatusReply(led: int, uptime: Uint32): (reply: string)
    requires led == 0 || led == 1
    ensures 0 < |reply| < LINE_SIZE
    ensures reply[|reply| - 1] == LF && AllPrintable(reply[..|reply| - 1])
  {
    Uint32Length(uptime);
    "STATUS LED=" + Decimal(led) + " UPTIME_MS=" + Decimal(uptime) + "\n"
  }

  function HeartbeatReply(n: Uint32): (reply: string)
    ensures 0 < |reply| < LINE_SIZE
    ensures reply[|reply| - 1] == LF && AllPrintable(reply[..|reply| - 1])
  {
    Uint32Length(n);
    "OK HEARTBEAT=" + Decimal(n) + "\n"
  }

  // ---------------------------------------------------------------- framing

  /** The receiver between two bytes. */
  datatype Framer = Framer(line: string, cr: bool, discarding: bool, tooLong: bool)

  /** What an LF sets off: a line for the handler, or one of the two framing errors. */
  datatype Event = Line(text: string) | TooLong | Garbled

  const CLEAN := Framer("", false, false, false)

  function Ended(f: Framer): Event {
    if !f.discarding then Line(f.line) else if f.tooLong then TooLong else Garbled
  }

  function Take(f: Framer, byte: char): Framer
    requires byte != LF
  {
    if f.discarding then f
    else if f.cr then f.(discarding := true)
    else if byte == CR then f.(cr := true)
    else if !Printable(byte) then f.(discarding := true)
    else if |f.line| >= LINE_SIZE - 1 then f.(discarding := true, tooLong := true)
    else f.(line := f.line + [byte])
  }

  datatype Fed = Fed(state: Framer, events: seq<Event>)

  function FeedByte(f: Framer, byte: char): Fed {
    if byte == LF then Fed(CLEAN, [Ended(f)]) else Fed(Take(f, byte), [])
  }

  function FeedAll(f: Framer, bytes: string): Fed
    decreases |bytes|
  {
    if bytes == [] then Fed(f, [])
    else
      var first := FeedByte(f, bytes[0]);
      var rest := FeedAll(first.state, bytes[1..]);
      Fed(rest.state, first.events + rest.events)
  }

  // The same thing line by line.

  /** The length of the longest printable prefix. */
  function PrintableRun(line: string): (n: nat)
    ensures n <= |line| && AllPrintable(line[..n]) && (n < |line| ==> !Printable(line[n]))
  {
    if line == [] || !Printable(line[0]) then 0
    else
      var n := PrintableRun(line[1..]);
      assert forall i :: 0 < i <= n ==> line[i] == line[1..][i - 1];
      1 + n
  }

  /** A line is handled iff it is at most 127 printable bytes and at most one final CR; it is
      too long iff its printable run reaches 128. */
  function Classify(line: string): Event {
    var n := PrintableRun(line);
    if n >= LINE_SIZE then TooLong
    else if n == |line| || (n == |line| - 1 && line[n] == CR) then Line(line[..n])
    else Garbled
  }

  /** The printable run is as long as it says. */
  lemma RunIs(line: string, k: nat)
    requires k <= |line| && AllPrintable(line[..k]) && (k < |line| ==> !Printable(line[k]))
    ensures PrintableRun(line) == k
  {
    hide PrintableRun;
    var n := PrintableRun(line);
    assert forall i :: 0 <= i < k ==> Printable(line[..k][i]) && line[..k][i] == line[i];
    assert forall i :: 0 <= i < n ==> Printable(line[..n][i]) && line[..n][i] == line[i];
  }

  lemma RunReaches(line: string, k: nat)
    ensures PrintableRun(line) >= k <==> |line| >= k && AllPrintable(line[..k])
  {
    hide PrintableRun;
    var n := PrintableRun(line);
    assert k <= n ==> line[..n][..k] == line[..k];
    assert n < k <= |line| ==> line[..k][n] == line[n];
  }

  lemma RunOfLine(line: string, text: string)
    requires AllPrintable(text) && (line == text || line == text + [CR])
    ensures PrintableRun(line) == |text| && line[..|text|] == text
  {
    assert line[..|text|] == text;
    RunIs(line, |text|);
  }

  /** The classification in plain numbers. */
  lemma ClassifyExactly(line: string)
    ensures Classify(line).TooLong? <==> |line| >= 128 && AllPrintable(line[..128])
    ensures Classify(line).Line? <==>
      exists text :: AllPrintable(text) && |text| <= 127 && (line == text || line == text + [CR])
    ensures forall text :: AllPrintable(text) && |text| <= 127 && (line == text || line == text + [CR]) ==>
      Classify(line) == Line(text)
  {
    hide PrintableRun, AllPrintable;
    RunReaches(line, 128);
    var n := PrintableRun(line);
    assert n == |line| ==> line == line[..n];
    assert n == |line| - 1 ==> line == line[..n] + [line[n]];
    forall text | AllPrintable(text) && |text| <= 127 && (line == text || line == text + [CR])
      ensures Classify(line) == Line(text)
    {
      RunOfLine(line, text);
    }
  }

  /** The complete lines of a stream, without their LF. */
  function Lines(bytes: string): seq<string>
    decreases |bytes|
  {
    if LF !in bytes then []
    else
      var n := FirstLf(bytes);
      [bytes[..n]] + Lines(bytes[n + 1..])
  }

  function FirstLf(bytes: string): (n: nat)
    requires LF in bytes
    ensures n < |bytes| && bytes[n] == LF && LF !in bytes[..n]
  {
    if bytes[0] == LF then 0
    else
      var n := FirstLf(bytes[1..]);
      assert bytes[..n + 1] == [bytes[0]] + bytes[1..][..n];
      1 + n
  }

  function ClassifyAll(lines: seq<string>): seq<Event> {
    if lines == [] then [] else [Classify(lines[0])] + ClassifyAll(lines[1..])
  }

  /** The receiver's state inside a line, as a function of the bytes of that line. */
  function Inside(line: string): Framer {
    var n := PrintableRun(line);
    if n >= LINE_SIZE then Framer(line[..LINE_SIZE - 1], false, true, true)
    else if n == |line| then Framer(line, false, false, false)
    else if line[n] == CR then Framer(line[..n], true, n + 1 < |line|, false)
    else Framer(line[..n], false, true, false)
  }

  lemma {:induction false} RunExtends(line: string, byte: char)
    ensures PrintableRun(line + [byte]) ==
      if PrintableRun(line) == |line| && Printable(byte) then |line| + 1 else PrintableRun(line)
  {
    if line == [] {
      assert (line + [byte])[1..] == [];
    } else {
      assert (line + [byte])[1..] == line[1..] + [byte];
      RunExtends(line[1..], byte);
    }
  }

  lemma InsideStep(line: string, byte: char)
    requires byte != LF
    ensures Take(Inside(line), byte) == Inside(line + [byte])
  {
    RunExtends(line, byte);
    hide PrintableRun;
    var n := PrintableRun(line);
    var more := line + [byte];
    assert more[..n] == line[..n];
    if n >= LINE_SIZE {
      assert more[..LINE_SIZE - 1] == line[..LINE_SIZE - 1];
    } else if n == |line| {
      assert line[..n] == line;
      if n == LINE_SIZE - 1 {
        assert more[..LINE_SIZE - 1] == line;
      }
    }
  }

  lemma {:induction false} FeedWithin(seen: string, bytes: string)
    requires LF !in bytes
    ensures FeedAll(Inside(seen), bytes) == Fed(Inside(seen + bytes), [])
    decreases |bytes|
  {
    if bytes == [] {
      assert seen + bytes == seen;
    } else {
      InsideStep(seen, bytes[0]);
      FeedWithin(seen + [bytes[0]], bytes[1..]);
      assert seen + [bytes[0]] + bytes[1..] == seen + bytes;
    }
  }

  /** Output over a + b is the output over a, then the output over b from where a left off. */
  lemma {:induction false} FeedConcat(f: Framer, a: string, b: string)
    ensures FeedAll(f, a + b) ==
      (var first := FeedAll(f, a);
       var second := FeedAll(first.state, b);
       Fed(second.state, first.events + second.events))
    decreases |a|
  {
    if a == [] {
      assert a + b == b;
    } else {
      assert (a + b)[1..] == a[1..] + b;
      FeedConcat(FeedByte(f, a[0]).state, a[1..], b);
    }
  }

  lemma InsideEnds(line: string)
    ensures Ended(Inside(line)) == Classify(line)
  {
  }

  /** One whole line from a clean state: one event, and the state is clean again. */
  lemma FeedLine(line: string)
    requires LF !in line
    ensures FeedAll(CLEAN, line + [LF]) == Fed(CLEAN, [Classify(line)])
  {
    assert Inside("") == CLEAN;
    FeedWithin("", line);
    assert "" + line == line;
    InsideEnds(line);
    FeedConcat(CLEAN, line, [LF]);
    assert [LF][1..] == [];
    assert FeedAll(Inside(line), [LF]) == Fed(CLEAN, [Ended(Inside(line))]);
  }

  /** Over any byte stream the receiver produces exactly one event per LF, the classification
      of the bytes since the previous one. */
  lemma {:induction false} FeedRefinesLines(bytes: string)
    ensures FeedAll(CLEAN, bytes).events == ClassifyAll(Lines(bytes))
    decreases |bytes|
  {
    if LF in bytes {
      var n := FirstLf(bytes);
      assert bytes == bytes[..n] + [LF] + bytes[n + 1..];
      FeedLine(bytes[..n]);
      FeedConcat(CLEAN, bytes[..n] + [LF], bytes[n + 1..]);
      FeedRefinesLines(bytes[n + 1..]);
      assert Lines(bytes)[1..] == Lines(bytes[n + 1..]);
    } else {
      assert Inside("") == CLEAN;
      FeedWithin("", bytes);
    }
  }

  // ---------------------------------------------------------------- the receiver itself

  class Protocol {
    const line: array<char>
    var length: nat
    var cr: bool
    var discarding: bool
    var tooLong: bool

    ghost predicate Valid()
      reads this
    {
      line.Length == LINE_SIZE && length < LINE_SIZE
    }

    ghost function State(): Framer
      requires Valid()
      reads this, line
    {
      Framer(line[..length], cr, discarding, tooLong)
    }

    /** `stm32_uart_protocol_init`. */
    constructor ()
      ensures Valid() && fresh(line) && State() == CLEAN
    {
      line := new char[LINE_SIZE];
      length, cr, discarding, tooLong := 0, false, false, false;
    }

    /** `stm32_uart_protocol_feed`; the reply is what is handed to the send callback. */
    method Feed(byte: char, a: Answers) returns (sent: Option<string>)
      requires Valid()
      modifies this, line
      ensures Valid()
      ensures State() == FeedByte(old(State()), byte).state
      ensures sent == if byte != LF then None else Some(
        match Ended(old(State()))
        case Line(text) => Handle(text, a)
        case TooLong => "ERR LINE_TOO_LONG\n"
        case Garbled => "ERR COMMAND\n")
    {
      if byte == LF {
        if discarding {
          sent := Some(if tooLong then "ERR LINE_TOO_LONG\n" else "ERR COMMAND\n");
        } else {
          sent := HandleInto(true, line[..length], a, LINE_SIZE);
        }
        length, cr, discarding, tooLong := 0, false, false, false;
        return;
      }
      sent := None;
      if discarding {
      } else if cr {
        discarding := true;
      } else if byte == CR {
        cr := true;
      } else if byte < ' ' || byte > '~' {
        discarding := true;
      } else if length >= LINE_SIZE - 1 {
        discarding, tooLong := true, true;
      } else {
        line[length] := byte;
        length := length + 1;
        assert line[..length] == old(line[..length]) + [byte];
      }
    }
  }
}

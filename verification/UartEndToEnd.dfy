/** Host and device together: every request the host accepts is answered by a working device
    with exactly one reply, which the host accepts. */
module UartEndToEnd {
  import opened Options
  import opened Numbers
  import D = UartDevice
  import H = UartHost

  /** A working board whose LED is `led`: setting works and reading back gives what was set. */
  function Working(text: string, led: int, uptime: Uint32): D.Answers {
    D.Answers(0, if text == "LED ON" then 1 else if text == "LED OFF" then 0 else led, uptime)
  }

  lemma RequestIsPrintable(text: string)
    requires H.ParseRequest(text).Some?
    ensures D.AllPrintable(text) && D.LF !in text
  {
  }

  lemma {:induction false} PrintableRunsThrough(line: string)
    requires D.AllPrintable(line)
    ensures D.PrintableRun(line) == |line|
  {
  }

  /** Fed with an accepted request and an LF, a clean device hands exactly that request to its
      handler, once, and is clean again. */
  lemma DeviceSeesRequest(text: string)
    requires H.ParseRequest(text).Some? && |text| < D.LINE_SIZE
    ensures D.FeedAll(D.CLEAN, text + [D.LF]) == D.Fed(D.CLEAN, [D.Line(text)])
  {
    RequestIsPrintable(text);
    PrintableRunsThrough(text);
    D.FeedLine(text);
    assert text[..|text|] == text;
  }

  /** The reply without its LF. */
  function Sent(text: string, a: D.Answers): (line: string)
    ensures D.AllPrintable(line) && |line| < 127 && line + [D.LF] == D.Handle(text, a)
  {
    var reply := D.Handle(text, a);
    reply[..|reply| - 1]
  }

  lemma HeartbeatComesBack(text: string, a: D.Answers, n: Uint32)
    requires H.ParseRequest(text) == Some(H.Heartbeat(n)) && |text| < D.LINE_SIZE
    ensures Sent(text, a) == "OK HEARTBEAT=" + Decimal(n) && H.ValidReply(H.Heartbeat(n), Sent(text, a))
  {
    ValueOfDecimal(n);
    var line := "OK HEARTBEAT=" + Decimal(n);
    assert D.Handle(text, a) == line + [D.LF];
    assert Sent(text, a) == line;
    assert line[13..] == Decimal(n);
  }

  /** A STATUS reply names the LED state read and the uptime. */
  lemma StatusComesBack(a: D.Answers)
    requires a.getLed == 0 || a.getLed == 1
    ensures var line := Sent("STATUS", a);
      H.ValidReply(H.Status, line) && line[11] == DigitChar(a.getLed) && Parsed(line[23..]) == Some(a.uptime)
  {
    ValueOfDecimal(a.uptime);
    var line := "STATUS LED=" + Decimal(a.getLed) + " UPTIME_MS=" + Decimal(a.uptime);
    assert Decimal(a.getLed) == [DigitChar(a.getLed)];
    assert D.Handle("STATUS", a) == line + [D.LF];
    assert Sent("STATUS", a) == line;
    assert line[..11] == "STATUS LED=";
    assert line[12..][..11] == " UPTIME_MS=";
    assert line[23..] == Decimal(a.uptime);
  }

  /** Every accepted request gets a reply the host accepts. */
  lemma ReplyIsValid(text: string, led: int, uptime: Uint32)
    requires H.ParseRequest(text).Some? && |text| < D.LINE_SIZE && (led == 0 || led == 1)
    ensures H.ValidReply(H.ParseRequest(text).value, Sent(text, Working(text, led, uptime)))
  {
    var a := Working(text, led, uptime);
    RequestText(text);
    match H.ParseRequest(text).value
    case Ping => FixedReply("PING", a, "PONG");
    case Status => hide D.Handle; StatusComesBack(a);
    case LedOn => FixedReply("LED ON", a, "OK LED=1");
    case LedOff => FixedReply("LED OFF", a, "OK LED=0");
    case Heartbeat(n) => hide D.Handle; HeartbeatComesBack(text, a, n);
  }

  /** Four of the five requests have one spelling. */
  lemma RequestText(text: string)
    requires H.ParseRequest(text).Some?
    ensures match H.ParseRequest(text).value
      case Ping => text == "PING"
      case Status => text == "STATUS"
      case LedOn => text == "LED ON"
      case LedOff => text == "LED OFF"
      case Heartbeat(_) => true
  {
  }

  lemma FixedReply(text: string, a: D.Answers, line: string)
    requires D.Handle(text, a) == line + [D.LF]
    ensures Sent(text, a) == line
  {
    hide D.Handle;
    assert (line + [D.LF])[..|line|] == line;
  }

  /** Both ends understand the same requests: the device refuses a line as no command, or as a
      bad argument, exactly when the host would not send it. */
  lemma SameLanguage(text: string, a: D.Answers)
    requires |text| < D.LINE_SIZE
    ensures H.ParseRequest(text).None? <==>
      D.Handle(text, a) == "ERR COMMAND\n" || D.Handle(text, a) == "ERR ARGUMENT\n"
    ensures D.Handle(text, a) == "ERR ARGUMENT\n" <==> "HEARTBEAT " <= text && Parsed(text[10..]).None?
  {
    var reply := D.Handle(text, a);
    if H.ParseRequest(text).Some? {
      assert reply[0] == 'E' ==> reply == "ERR DEVICE\n";
      assert "ERR DEVICE\n"[4] == 'D' && "ERR COMMAND\n"[4] == 'C' && "ERR ARGUMENT\n"[4] == 'A';
    } else {
      assert "ERR COMMAND\n"[4] == 'C' && "ERR ARGUMENT\n"[4] == 'A';
    }
  }

  /** What the device answers to the requests that ask the board, whatever the board does, and to what
      is too long. */
  lemma BoardReplies(on: bool, a: D.Answers)
    ensures D.Handle(if on then "LED ON" else "LED OFF", a) ==
      if a.setLed == 0 && a.getLed == (if on then 1 else 0) then (if on then "OK LED=1\n" else "OK LED=0\n")
      else "ERR DEVICE\n"
    ensures a.getLed != 0 && a.getLed != 1 ==> D.Handle("STATUS", a) == "ERR DEVICE\n"
    ensures D.Handle("PING", a) == "PONG\n"
    ensures forall text :: |text| >= 128 ==> D.Handle(text, a) == "ERR LINE_TOO_LONG\n"
  {
  }

  /** Whatever the board's callbacks did: if the host accepts the reply to an LED request, the
      device set the LED and read back the state asked for. */
  lemma LedReplyMeansReadBack(on: bool, a: D.Answers)
    requires var text := if on then "LED ON" else "LED OFF";
      H.ValidReply(if on then H.LedOn else H.LedOff, Sent(text, a))
    ensures a.setLed == 0 && a.getLed == if on then 1 else 0
  {
  }

  // ---------------------------------------------------------------- over the wire

  /** These turns deliver bytes in time, with nothing worse than an EAGAIN. */
  predicate Delivering(turns: seq<H.Turn>, deadline: int) {
    forall i :: 0 <= i < |turns| ==>
      && turns[i].clock.Some? && turns[i].clock.value < deadline
      && turns[i].wait.Ready? && (turns[i].read.Got? || turns[i].read.Again?)
  }

  lemma {:induction false} HostReadsLine(line: string, tail: string, turns: seq<H.Turn>, deadline: int)
    requires Delivering(turns, deadline) && H.Bytes(turns) == tail + [D.LF]
    requires D.AllPrintable(tail) && |line| + |tail| < H.LINE_SIZE
    ensures H.Receive(line, false, turns, deadline).outcome == H.Line(line + tail)
    decreases |turns|
  {
    var t := turns[0];
    assert Delivering(turns[1..], deadline);
    if t.read.Again? {
      HostReadsLine(line, tail, turns[1..], deadline);
    } else {
      assert t.read.byte == (tail + [D.LF])[0];
      if tail == [] {
        assert line + tail == line;
      } else {
        assert H.Bytes(turns[1..]) == (tail + [D.LF])[1..] == tail[1..] + [D.LF];
        HostReadsLine(line + [tail[0]], tail[1..], turns[1..], deadline);
        assert line + [tail[0]] + tail[1..] == line + tail;
      }
    }
  }

  /** Nothing stands in the way of this request but the reply itself. */
  predicate Healthy(env: H.Env, deadline: int) {
    && env.isUart && env.enabled && env.isOpen && env.flush.None? && env.write.None?
    && env.start.Some?
    && env.beforeWrite.Some? && env.beforeWrite.value < deadline
    && env.end.Some? && env.end.value < deadline
  }

  /** The whole exchange: for every request `parse_request` accepts, a clean working device
      produces one event and one reply; if that reply arrives before the deadline, the host
      returns success with the reply in the caller's buffer. */
  lemma EndToEnd(text: string, led: int, uptime: Uint32, buffer: string, size: int, timeoutMs: int, env: H.Env)
    requires H.ParseRequest(text).Some? && |text| < D.LINE_SIZE && (led == 0 || led == 1)
    requires timeoutMs > 0 && env.start.Some? && Healthy(env, env.start.value + timeoutMs)
    requires Delivering(env.turns, env.start.value + timeoutMs)
    requires H.Bytes(env.turns) == D.Handle(text, Working(text, led, uptime))
    requires size > |Sent(text, Working(text, led, uptime))|
    ensures D.FeedAll(D.CLEAN, text + [D.LF]) == D.Fed(D.CLEAN, [D.Line(text)])
    ensures H.Transaction(text, buffer, size, timeoutMs, env) == H.Success(Sent(text, Working(text, led, uptime)))
  {
    hide D.FeedAll, D.Handle, H.Receive, H.ValidReply, H.ParseRequest, H.Bytes, Working;
    DeviceSeesRequest(text);
    var line := Sent(text, Working(text, led, uptime));
    ReplyIsValid(text, led, uptime);
    HostReadsLine("", line, env.turns, env.start.value + timeoutMs);
    assert "" + line == line;
  }
}

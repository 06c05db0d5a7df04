/** The host end of the UART protocol: src/uart_protocol.c. The clock and the port are a
    script of what each call of a turn of the receive loop gave. */
module UartHost {
  import opened Options
  import opened Numbers
  import opened Errno
  import D = UartDevice

  const LINE_SIZE: nat := 128
  const INT_MAX: int := 0x7FFF_FFFF

  // ---------------------------------------------------------------- requests and replies

  datatype Request = Ping | Status | LedOn | LedOff | Heartbeat(n: Uint32)

  function ParseRequest(text: string): Option<Request> {
    if text == "PING" then Some(Ping)
    else if text == "STATUS" then Some(Status)
    else if text == "LED ON" then Some(LedOn)
    else if text == "LED OFF" then Some(LedOff)
    else if "HEARTBEAT " <= text then
      match Parsed(text[10..])
      case None => None
      case Some(n) => Some(Heartbeat(n))
    else None
  }

  predicate ValidReply(req: Request, reply: string) {
    match req
    case Ping => reply == "PONG"
    case Status =>
      && |reply| >= 24
      && "STATUS LED=" <= reply
      && (reply[11] == '0' || reply[11] == '1')
      && " UPTIME_MS=" <= reply[12..]
      && Parsed(reply[23..]).Some?
    case LedOn => reply == "OK LED=1"
    case LedOff => reply == "OK LED=0"
    case Heartbeat(n) => "OK HEARTBEAT=" <= reply && Parsed(reply[13..]) == Some(n)
  }

  // ---------------------------------------------------------------- the receive loop

  datatype Wait = Ready | Quiet | WaitFailed(e: Errno)
  datatype Read = Got(byte: char) | Again | Eof | ReadFailed(e: Errno)

  /** One turn: the clock, DEVICE_CONTROL_UART_WAIT, then device_read of one byte. */
  datatype Turn = Turn(clock: Option<int>, wait: Wait, read: Read)

  datatype Outcome = Line(text: string) | Failed(e: Errno)

  datatype Received = Received(outcome: Outcome, used: nat, timeouts: seq<int>)

  /** `remaining_ms`: the time left, at most INT_MAX, or none. */
  function Remaining(deadline: int, now: int): Option<int> {
    if deadline - now <= 0 then None
    else Some(if deadline - now > INT_MAX then INT_MAX else deadline - now)
  }

  function ClockError(clock: Option<int>): Errno {
    if clock.Some? then ETIMEDOUT else OtherError(0)
  }

  /** What one byte does to the line so far. */
  datatype Accept = End | Keep(line: string, cr: bool) | Reject(e: Errno)

  function AcceptByte(line: string, cr: bool, byte: char): Accept {
    if byte == D.LF then End
    else if cr then Reject(EPROTO)
    else if byte == D.CR then Keep(line, true)
    else if !D.Printable(byte) then Reject(EPROTO)
    else if |line| >= LINE_SIZE - 1 then Reject(EMSGSIZE)
    else Keep(line + [byte], false)
  }

  predicate InTime(t: Turn, deadline: int) {
    t.clock.Some? && Remaining(deadline, t.clock.value).Some?
  }

  /** The receive loop from the state (line, cr). After the script the port stays quiet. */
  function Receive(line: string, cr: bool, turns: seq<Turn>, deadline: int): (r: Received)
    ensures r.used <= |turns|
    decreases |turns|
  {
    if turns == [] then Received(Failed(ETIMEDOUT), 0, [])
    else
      var t := turns[0];
      if !InTime(t, deadline) then Received(Failed(ClockError(t.clock)), 0, [])
      else
        var timeout := Remaining(deadline, t.clock.value).value;
        match t.wait
        case WaitFailed(e) => Received(Failed(e), 1, [timeout])
        case Quiet => Received(Failed(ETIMEDOUT), 1, [timeout])
        case Ready =>
          match t.read
          case ReadFailed(e) => Received(Failed(e), 1, [timeout])
          case Eof => Received(Failed(EIO), 1, [timeout])
          case Again => After(timeout, Receive(line, cr, turns[1..], deadline))
          case Got(byte) =>
            match AcceptByte(line, cr, byte)
            case End => Received(Line(line), 1, [timeout])
            case Reject(e) => Received(Failed(e), 1, [timeout])
            case Keep(line', cr') => After(timeout, Receive(line', cr', turns[1..], deadline))
  }

  function After(timeout: int, rest: Received): Received {
    Received(rest.outcome, rest.used + 1, [timeout] + rest.timeouts)
  }

  /** The loop of `uart_protocol_request`. */
  method ReceiveLoop(turns: seq<Turn>, deadline: int) returns (r: Received)
    ensures r == Receive("", false, turns, deadline)
  {
    var line, cr, used, timeouts := "", false, 0, [];
    while true
      invariant used <= |turns|
      invariant Receive("", false, turns, deadline) ==
        (var rest := Receive(line, cr, turns[used..], deadline);
         Received(rest.outcome, used + rest.used, timeouts + rest.timeouts))
      decreases |turns| - used
    {
      if used == |turns| {
        return Received(Failed(ETIMEDOUT), used, timeouts);
      }
      var t := turns[used];
      assert turns[used..][1..] == turns[used + 1..];
      if !InTime(t, deadline) {
        return Received(Failed(ClockError(t.clock)), used, timeouts);
      }
      used := used + 1;
      timeouts := timeouts + [Remaining(deadline, t.clock.value).value];
      if t.wait.WaitFailed? {
        return Received(Failed(t.wait.e), used, timeouts);
      }
      if t.wait.Quiet? {
        return Received(Failed(ETIMEDOUT), used, timeouts);
      }
      match t.read {
        case ReadFailed(e) => return Received(Failed(e), used, timeouts);
        case Eof => return Received(Failed(EIO), used, timeouts);
        case Again =>
        case Got(byte) =>
          if byte == D.LF {
            return Received(Line(line), used, timeouts);
          }
          if cr {
            return Received(Failed(EPROTO), used, timeouts);
          }
          if byte == D.CR {
            cr := true;
          } else {
            if byte < ' ' || byte > '~' {
              return Received(Failed(EPROTO), used, timeouts);
            }
            if |line| >= LINE_SIZE - 1 {
              return Received(Failed(EMSGSIZE), used, timeouts);
            }
            line := line + [byte];
          }
      }
    }
  }

  /** The bytes taken from the port. */
  function Bytes(turns: seq<Turn>): string {
    if turns == [] then []
    else (if turns[0].wait.Ready? && turns[0].read.Got? then [turns[0].read.byte] else []) + Bytes(turns[1..])
  }

  function Prior(line: string, cr: bool): string {
    line + if cr then [D.CR] else []
  }

  /** What a run of the loop may take from the port, all told. */
  predicate Took(bytes: string, outcome: Outcome) {
    && |bytes| <= LINE_SIZE + 1
    && (outcome.Line? ==>
          && D.AllPrintable(outcome.text) && |outcome.text| < LINE_SIZE
          && (bytes == outcome.text + [D.LF] || bytes == outcome.text + [D.CR, D.LF]))
  }

  lemma BytesStep(turns: seq<Turn>, n: nat)
    requires 0 < n <= |turns|
    ensures Bytes(turns[..n]) ==
      (if turns[0].wait.Ready? && turns[0].read.Got? then [turns[0].read.byte] else []) + Bytes(turns[1..][..n - 1])
  {
    assert turns[..n][1..] == turns[1..][..n - 1];
  }

  /** The loop goes on after this turn. */
  predicate GoesOn(line: string, cr: bool, t: Turn, deadline: int) {
    InTime(t, deadline) && t.wait.Ready? && (t.read.Again? || (t.read.Got? && AcceptByte(line, cr, t.read.byte).Keep?))
  }

  lemma Continues(line: string, cr: bool, turns: seq<Turn>, deadline: int) returns (line': string, cr': bool)
    requires D.AllPrintable(line) && |line| < LINE_SIZE && turns != [] && GoesOn(line, cr, turns[0], deadline)
    ensures D.AllPrintable(line') && |line'| < LINE_SIZE
    ensures Prior(line', cr') == Prior(line, cr) + if turns[0].read.Got? then [turns[0].read.byte] else []
    ensures var r, rest := Receive(line, cr, turns, deadline), Receive(line', cr', turns[1..], deadline);
      r.used == rest.used + 1 && r.outcome == rest.outcome
  {
    if turns[0].read.Again? {
      line', cr' := line, cr;
    } else {
      var k := AcceptByte(line, cr, turns[0].read.byte);
      line', cr' := k.line, k.cr;
    }
  }

  lemma LastTurn(line: string, cr: bool, turns: seq<Turn>, deadline: int)
    requires D.AllPrintable(line) && |line| < LINE_SIZE && (turns == [] || !GoesOn(line, cr, turns[0], deadline))
    ensures var r := Receive(line, cr, turns, deadline);
      r.used <= 1 && Took(Prior(line, cr) + Bytes(turns[..r.used]), r.outcome)
  {
  }

  lemma {:induction false} ReceiveTakes(line: string, cr: bool, turns: seq<Turn>, deadline: int)
    requires D.AllPrintable(line) && |line| < LINE_SIZE
    ensures var r := Receive(line, cr, turns, deadline);
      Took(Prior(line, cr) + Bytes(turns[..r.used]), r.outcome)
    decreases |turns|
  {
    hide Receive, Took, Prior, Bytes, AcceptByte;
    if turns == [] || !GoesOn(line, cr, turns[0], deadline) {
      LastTurn(line, cr, turns, deadline);
    } else {
      var r := Receive(line, cr, turns, deadline);
      var line', cr' := Continues(line, cr, turns, deadline);
      ReceiveTakes(line', cr', turns[1..], deadline);
      BytesStep(turns, r.used);
      var rest := Bytes(turns[1..][..r.used - 1]);
      var first := if turns[0].read.Got? then [turns[0].read.byte] else [];
      assert Prior(line, cr) + (first + rest) == Prior(line', cr') + rest;
    }
  }

  /** What `Took` says of a line, in terms of the first LF. */
  lemma TookExact(taken: string, text: string)
    requires Took(taken, Line(text))
    ensures |text| <= 127 && D.LF in taken && D.FirstLf(taken) == |taken| - 1
    ensures text == if D.CR in taken then taken[..|taken| - 2] else taken[..|taken| - 1]
  {
  }

  /** Success means the line is exactly what came before the first LF, less one final CR, all
      of it printable and at most 127 bytes; in any case at most 129 bytes are taken. */
  lemma ReceiveExact(turns: seq<Turn>, deadline: int)
    ensures var r := Receive("", false, turns, deadline); var taken := Bytes(turns[..r.used]);
      && |taken| <= 129
      && (r.outcome.Line? ==>
            && D.AllPrintable(r.outcome.text) && |r.outcome.text| <= 127
            && D.LF in taken && D.FirstLf(taken) == |taken| - 1
            && r.outcome.text == (if D.CR in taken then taken[..|taken| - 2] else taken[..|taken| - 1]))
  {
    hide Receive, Bytes, D.FirstLf;
    ReceiveTakes("", false, turns, deadline);
    var r := Receive("", false, turns, deadline);
    var taken := Bytes(turns[..r.used]);
    assert Prior("", false) + taken == taken;
    if r.outcome.Line? {
      TookExact(taken, r.outcome.text);
    }
  }

  // ---------------------------------------------------------------- where the receive loop ends

  /** What may have been received of a line that is not complete. */
  ghost predicate Unfinished(bytes: string) {
    exists text :: D.AllPrintable(text) && |text| <= 127 && (bytes == text || bytes == text + "\r")
  }

  /** The turn is in time and gives a byte or nothing yet. */
  predicate Calm(t: Turn, deadline: int) {
    t.clock.Some? && t.clock.value < deadline && t.wait.Ready? && (t.read.Again? || t.read.Got?)
  }

  /** The loop that got these bytes in n calm turns ends there, and this is why: the script is over or
      the time is up, a call failed or stayed quiet, or the byte ends the line or cannot belong to it. */
  ghost predicate EndsThere(r: Received, bytes: string, turns: seq<Turn>, n: nat, deadline: int) {
    if n >= |turns| then r.outcome == Failed(ETIMEDOUT) && r.used == n
    else if turns[n].clock.None? then r.outcome == Failed(OtherError(0)) && r.used == n
    else if turns[n].clock.value >= deadline then r.outcome == Failed(ETIMEDOUT) && r.used == n
    else
      && r.used == n + 1
      && (turns[n].wait.Quiet? ==> r.outcome == Failed(ETIMEDOUT))
      && (turns[n].wait.WaitFailed? ==> r.outcome == Failed(turns[n].wait.e))
      && (turns[n].wait.Ready? ==>
            && !turns[n].read.Again?
            && (turns[n].read.Eof? ==> r.outcome == Failed(EIO))
            && (turns[n].read.ReadFailed? ==> r.outcome == Failed(turns[n].read.e))
            && (turns[n].read.Got? ==> ByteEnds(r.outcome, bytes, turns[n].read.byte)))
  }

  ghost predicate ByteEnds(outcome: Outcome, bytes: string, byte: char) {
    if byte == '\n' then outcome.Line? && (bytes == outcome.text || bytes == outcome.text + "\r")
    else if D.AllPrintable(bytes + [byte]) then |bytes| == 127 && outcome == Failed(EMSGSIZE)
    else !Unfinished(bytes + [byte]) && outcome == Failed(EPROTO)
  }

  lemma PriorIsUnfinished(line: string, cr: bool)
    requires D.AllPrintable(line) && |line| <= 127
    ensures Unfinished(Prior(line, cr))
  {
    assert Prior(line, cr) == line || Prior(line, cr) == line + "\r";
  }

  lemma EndsHere(line: string, cr: bool, turns: seq<Turn>, deadline: int)
    requires D.AllPrintable(line) && |line| <= 127 && (turns == [] || !GoesOn(line, cr, turns[0], deadline))
    ensures EndsThere(Receive(line, cr, turns, deadline), Prior(line, cr), turns, 0, deadline)
  {
    hide Unfinished;
    if turns != [] && turns[0].read.Got? {
      ByteIsAccepted(line, cr, turns[0].read.byte);
    }
    hide AcceptByte, ByteEnds;
  }

  lemma ByteIsAccepted(line: string, cr: bool, byte: char)
    requires D.AllPrintable(line) && |line| <= 127
    ensures var k, bytes := AcceptByte(line, cr, byte), Prior(line, cr);
      && (k.End? ==> ByteEnds(Line(line), bytes, byte))
      && (k.Reject? ==> ByteEnds(Failed(k.e), bytes, byte))
  {
    var bytes := Prior(line, cr) + [byte];
    assert |bytes| > 0 && bytes[|bytes| - 1] == byte;
    if cr {
      assert bytes[|line|] == D.CR && !D.Printable(D.CR);
    }
    if text :| D.AllPrintable(text) && |text| <= 127 && (bytes == text || bytes == text + "\r") {
      assert bytes == text ==> D.Printable(bytes[|bytes| - 1]);
      assert bytes == text + "\r" ==> bytes[|bytes| - 1] == D.CR;
    }
  }

  lemma {:induction false} EndsFrom(line: string, cr: bool, turns: seq<Turn>, deadline: int) returns (n: nat)
    requires D.AllPrintable(line) && |line| <= 127
    ensures n <= |turns| && (forall i :: 0 <= i < n ==> Calm(turns[i], deadline))
    ensures var bytes := Prior(line, cr) + Bytes(turns[..n]);
      Unfinished(bytes) && EndsThere(Receive(line, cr, turns, deadline), bytes, turns, n, deadline)
    decreases |turns|
  {
    hide Receive, Prior, Bytes, AcceptByte, Unfinished, ByteEnds;
    if turns == [] || !GoesOn(line, cr, turns[0], deadline) {
      n := 0;
      PriorIsUnfinished(line, cr);
      EndsHere(line, cr, turns, deadline);
      NoBytes();
      assert Prior(line, cr) + [] == Prior(line, cr);
    } else {
      var line', cr' := Continues(line, cr, turns, deadline);
      var rest := EndsFrom(line', cr', turns[1..], deadline);
      n := rest + 1;
      BytesStep(turns, n);
      var first := if turns[0].read.Got? then [turns[0].read.byte] else [];
      var more := Bytes(turns[1..][..rest]);
      assert Prior(line, cr) + (first + more) == Prior(line', cr') + more;
    }
  }

  lemma NoBytes()
    ensures Bytes([]) == []
  {
  }

  /** The loop goes through calm turns as long as a line is unfinished, and ends at the first turn that
      is not so, for the reason found there. */
  lemma EndsExactly(turns: seq<Turn>, deadline: int) returns (n: nat)
    ensures n <= |turns| && (forall i :: 0 <= i < n ==> Calm(turns[i], deadline)) && Unfinished(Bytes(turns[..n]))
    ensures EndsThere(Receive("", false, turns, deadline), Bytes(turns[..n]), turns, n, deadline)
  {
    hide Receive, Bytes, Unfinished, EndsThere;
    n := EndsFrom("", false, turns, deadline);
    assert Prior("", false) + Bytes(turns[..n]) == Bytes(turns[..n]);
  }

  // ---------------------------------------------------------------- the deadline

  predicate Monotone(turns: seq<Turn>) {
    forall i, k :: 0 <= i < k < |turns| && turns[i].clock.Some? && turns[k].clock.Some? ==>
      turns[i].clock.value <= turns[k].clock.value
  }

  /** A turn is in time exactly while its clock is before the deadline. */
  lemma InTimeMeans(t: Turn, deadline: int)
    ensures InTime(t, deadline) <==> t.clock.Some? && t.clock.value < deadline
  {
  }

  /** Timeout i handed to the port is the time turn i had left: waiting for it ends at the deadline,
      neither before nor after, unless it is more than an int can hold. */
  lemma {:induction false} TimeoutIsRemaining(line: string, cr: bool, turns: seq<Turn>, deadline: int, i: nat)
    requires i < |Receive(line, cr, turns, deadline).timeouts|
    ensures i < |turns| && turns[i].clock.Some?
    ensures var left := deadline - turns[i].clock.value;
      0 < left && Receive(line, cr, turns, deadline).timeouts[i] == if left < 0x7FFF_FFFF then left else 0x7FFF_FFFF
    decreases |turns|
  {
    if i > 0 {
      var t := turns[0];
      if t.read.Again? {
        TimeoutIsRemaining(line, cr, turns[1..], deadline, i - 1);
      } else {
        var k := AcceptByte(line, cr, t.read.byte);
        TimeoutIsRemaining(k.line, k.cr, turns[1..], deadline, i - 1);
      }
    }
  }

  /** Every timeout passed down is positive, and with a monotone clock they never grow. */
  lemma TimeoutsShrink(turns: seq<Turn>, deadline: int, i: nat, k: nat)
    requires Monotone(turns) && i <= k < |Receive("", false, turns, deadline).timeouts|
    ensures var ts := Receive("", false, turns, deadline).timeouts;
      0 < ts[k] <= ts[i] <= INT_MAX
  {
    TimeoutIsRemaining("", false, turns, deadline, i);
    TimeoutIsRemaining("", false, turns, deadline, k);
    assert turns[i].clock.value <= turns[k].clock.value;
  }

  /** The clock does not run backwards from the reading before the write on. */
  predicate MonotoneFrom(now: int, turns: seq<Turn>) {
    Monotone(turns) && forall i :: 0 <= i < |turns| && turns[i].clock.Some? ==> now <= turns[i].clock.value
  }

  /** One deadline covers the whole transaction: the timeout handed to the write is positive, and
      every timeout of the receive loop is at most that. */
  lemma WriteTimeoutBounds(now: int, turns: seq<Turn>, deadline: int, k: nat)
    requires MonotoneFrom(now, turns) && k < |Receive("", false, turns, deadline).timeouts|
    ensures now < deadline && Remaining(deadline, now).Some?
    ensures 0 < Receive("", false, turns, deadline).timeouts[k] <= Remaining(deadline, now).value <= deadline - now
  {
    hide Receive;
    TimeoutIsRemaining("", false, turns, deadline, k);
  }

  // ---------------------------------------------------------------- the whole request

  /** Everything outside the function: the device's state and what each call gave. */
  datatype Env = Env(
    isUart: bool, enabled: bool, isOpen: bool,
    start: Option<int>,
    flush: Option<Errno>,
    beforeWrite: Option<int>,
    write: Option<Errno>,
    turns: seq<Turn>,
    end: Option<int>)

  /** The return value, errno, and the caller's buffer afterwards. */
  datatype Result = Success(buffer: string) | Failure(e: Errno, buffer: string)

  /** `uart_protocol_request` with a reply buffer of `size` bytes holding `buffer`. */
  method Transact(text: string, buffer: string, size: int, timeoutMs: int, env: Env)
    returns (r: Result, written: Option<int>)
    ensures r == Transaction(text, buffer, size, timeoutMs, env)
    ensures written == WriteTimeout(text, size, timeoutMs, env)
  {
    written := None;
    if !env.isUart || size <= 0 || timeoutMs < 0 {
      return Failure(EINVAL, buffer), written;
    }
    if !env.enabled {
      return Failure(EACCES, buffer), written;
    }
    if !env.isOpen {
      return Failure(EBADF, buffer), written;
    }
    if |text| >= LINE_SIZE {
      return Failure(EMSGSIZE, buffer), written;
    }
    var request := ParseRequest(text);
    if request.None? {
      return Failure(EINVAL, buffer), written;
    }
    if timeoutMs == 0 {
      return Failure(ETIMEDOUT, ""), written;
    }
    if env.start.None? {
      return Failure(OtherError(0), ""), written;
    }
    var deadline := env.start.value + timeoutMs;
    if env.flush.Some? {
      return Failure(env.flush.value, ""), written;
    }
    if env.beforeWrite.None? || Remaining(deadline, env.beforeWrite.value).None? {
      return Failure(ClockError(env.beforeWrite), ""), written;
    }
    written := Remaining(deadline, env.beforeWrite.value);
    if env.write.Some? {
      return Failure(env.write.value, ""), written;
    }
    var received := ReceiveLoop(env.turns, deadline);
    if received.outcome.Failed? {
      return Failure(received.outcome.e, ""), written;
    }
    var line := received.outcome.text;
    if env.end.None? || Remaining(deadline, env.end.value).None? {
      return Failure(ClockError(env.end), ""), written;
    }
    if !ValidReply(request.value, line) {
      return Failure(EPROTO, ""), written;
    }
    if |line| >= size {
      return Failure(EMSGSIZE, ""), written;
    }
    r := Success(line);
  }

  /** The timeout handed to DEVICE_CONTROL_UART_WRITE_ALL, if it comes to that. */
  function WriteTimeout(text: string, size: int, timeoutMs: int, env: Env): Option<int> {
    if env.isUart && env.enabled && env.isOpen && size > 0 && timeoutMs > 0 && |text| < LINE_SIZE
       && ParseRequest(text).Some? && env.start.Some? && env.flush.None? && env.beforeWrite.Some?
    then Remaining(env.start.value + timeoutMs, env.beforeWrite.value)
    else None
  }

  /** It is the time left of the one deadline, and it is positive. */
  lemma WriteTimeoutIsRemaining(text: string, size: int, timeoutMs: int, env: Env)
    requires WriteTimeout(text, size, timeoutMs, env).Some?
    ensures env.start.Some? && env.beforeWrite.Some?
    ensures var left := env.start.value + timeoutMs - env.beforeWrite.value;
      0 < left && WriteTimeout(text, size, timeoutMs, env).value == if left < 0x7FFF_FFFF then left else 0x7FFF_FFFF
  {
  }

  /** The transaction as one expression: the first obstacle decides. */
  function Transaction(text: string, buffer: string, size: int, timeoutMs: int, env: Env): Result {
    if !env.isUart || size <= 0 || timeoutMs < 0 then Failure(EINVAL, buffer)
    else if !env.enabled then Failure(EACCES, buffer)
    else if !env.isOpen then Failure(EBADF, buffer)
    else if |text| >= LINE_SIZE then Failure(EMSGSIZE, buffer)
    else if ParseRequest(text).None? then Failure(EINVAL, buffer)
    else if timeoutMs == 0 then Failure(ETIMEDOUT, "")
    else if env.start.None? then Failure(OtherError(0), "")
    else Exchange(ParseRequest(text).value, size, env.start.value + timeoutMs, env)
  }

  function Exchange(req: Request, size: int, deadline: int, env: Env): Result {
    if env.flush.Some? then Failure(env.flush.value, "")
    else if env.beforeWrite.None? || Remaining(deadline, env.beforeWrite.value).None? then
      Failure(ClockError(env.beforeWrite), "")
    else if env.write.Some? then Failure(env.write.value, "")
    else
      match Receive("", false, env.turns, deadline).outcome
      case Failed(e) => Failure(e, "")
      case Line(line) =>
        if env.end.None? || Remaining(deadline, env.end.value).None? then Failure(ClockError(env.end), "")
        else if !ValidReply(req, line) then Failure(EPROTO, "")
        else if |line| >= size then Failure(EMSGSIZE, "")
        else Success(line)
  }

  /** Exactly when a request succeeds: the device can be used, the request is one of the protocol
      and short enough, there was time and nothing failed up to and including the write, the line
      received is a valid reply and fits, and the clock is still before the deadline. */
  lemma SuccessExactly(text: string, buffer: string, size: int, timeoutMs: int, env: Env, reply: string)
    ensures Transaction(text, buffer, size, timeoutMs, env) == Success(reply) <==>
      && env.isUart && env.enabled && env.isOpen && size > 0 && timeoutMs > 0
      && |text| <= 127 && ParseRequest(text).Some?
      && env.start.Some? && env.flush.None? && env.write.None?
      && env.beforeWrite.Some? && env.beforeWrite.value < env.start.value + timeoutMs
      && Receive("", false, env.turns, env.start.value + timeoutMs).outcome == Line(reply)
      && env.end.Some? && env.end.value < env.start.value + timeoutMs
      && ValidReply(ParseRequest(text).value, reply) && |reply| < size
  {
    hide Receive, ValidReply, ParseRequest;
  }

  /** Why a request fails before anything is received, first reason first. */
  lemma RefusedBecause(text: string, buffer: string, size: int, timeoutMs: int, env: Env)
    ensures var r := Transaction(text, buffer, size, timeoutMs, env);
      var sound := env.isUart && size > 0 && timeoutMs >= 0;
      var usable := sound && env.enabled && env.isOpen;
      var asked := usable && |text| <= 127 && ParseRequest(text).Some?;
      && (!sound ==> r == Failure(EINVAL, buffer))
      && (sound && !env.enabled ==> r == Failure(EACCES, buffer))
      && (sound && env.enabled && !env.isOpen ==> r == Failure(EBADF, buffer))
      && (usable && |text| > 127 ==> r == Failure(EMSGSIZE, buffer))
      && (usable && |text| <= 127 && ParseRequest(text).None? ==> r == Failure(EINVAL, buffer))
      && (asked && timeoutMs == 0 ==> r == Failure(ETIMEDOUT, ""))
      && (asked && timeoutMs > 0 && env.start.None? ==> r == Failure(OtherError(0), ""))
  {
    hide Receive, ValidReply, ParseRequest;
  }

  /** Why it fails from then on. */
  lemma ExchangeFailsBecause(req: Request, size: int, deadline: int, env: Env)
    ensures var r := Exchange(req, size, deadline, env);
      var got := Receive("", false, env.turns, deadline).outcome;
      var written := env.flush.None? && env.beforeWrite.Some? && env.beforeWrite.value < deadline && env.write.None?;
      var answered := written && got.Line? && env.end.Some? && env.end.value < deadline;
      && (env.flush.Some? ==> r == Failure(env.flush.value, ""))
      && (env.flush.None? && env.beforeWrite.None? ==> r == Failure(OtherError(0), ""))
      && (env.flush.None? && env.beforeWrite.Some? && env.beforeWrite.value >= deadline ==> r == Failure(ETIMEDOUT, ""))
      && (env.flush.None? && env.beforeWrite.Some? && env.beforeWrite.value < deadline && env.write.Some? ==>
            r == Failure(env.write.value, ""))
      && (written && got.Failed? ==> r == Failure(got.e, ""))
      && (written && got.Line? && env.end.None? ==> r == Failure(OtherError(0), ""))
      && (written && got.Line? && env.end.Some? && env.end.value >= deadline ==> r == Failure(ETIMEDOUT, ""))
      && (answered && !ValidReply(req, got.text) ==> r == Failure(EPROTO, ""))
      && (answered && ValidReply(req, got.text) && |got.text| >= size ==> r == Failure(EMSGSIZE, ""))
  {
    hide Receive, ValidReply;
  }

  /** Before the request is parsed nothing is touched; from then on a failure leaves an empty reply. */
  lemma FailureLeaves(text: string, buffer: string, size: int, timeoutMs: int, env: Env)
    requires Transaction(text, buffer, size, timeoutMs, env).Failure?
    ensures var early := !env.isUart || size <= 0 || timeoutMs < 0 || !env.enabled || !env.isOpen || |text| > 127 ||
        ParseRequest(text).None?;
      Transaction(text, buffer, size, timeoutMs, env).buffer == if early then buffer else ""
  {
    hide Receive, ValidReply, ParseRequest;
  }

  /** The replies that are valid, spelled out. */
  lemma ValidReplyExactly(req: Request, reply: string)
    ensures req == Ping ==> (ValidReply(req, reply) <==> reply == "PONG")
    ensures req == LedOn ==> (ValidReply(req, reply) <==> reply == "OK LED=1")
    ensures req == LedOff ==> (ValidReply(req, reply) <==> reply == "OK LED=0")
    ensures req.Heartbeat? ==>
      (ValidReply(req, reply) <==> exists t :: IsNumber(t) && Value(t) == req.n && reply == "OK HEARTBEAT=" + t)
    ensures req == Status ==>
      (ValidReply(req, reply) <==>
         exists led, t :: (led == "0" || led == "1") && IsNumber(t) && reply == StatusLine(led, t))
  {
    if req.Heartbeat? {
      HeartbeatReplyExactly(req.n, reply);
    } else if req == Status {
      StatusReplyExactly(reply);
    }
  }

  function StatusLine(led: string, t: string): string {
    "STATUS LED=" + led + " UPTIME_MS=" + t
  }

  /** A number the parsers accept, with any leading zeros. */
  predicate IsNumber(t: string) {
    t != "" && AllDigits(t) && Value(t) <= UINT32_MAX
  }

  lemma HeartbeatReplyExactly(n: Uint32, reply: string)
    ensures ValidReply(Heartbeat(n), reply) <==>
      exists t :: IsNumber(t) && Value(t) == n && reply == "OK HEARTBEAT=" + t
  {
    if ValidReply(Heartbeat(n), reply) {
      assert reply == "OK HEARTBEAT=" + reply[13..];
    }
    if t :| IsNumber(t) && Value(t) == n && reply == "OK HEARTBEAT=" + t {
      assert reply[13..] == t;
    }
  }

  lemma StatusReplyExactly(reply: string)
    ensures ValidReply(Status, reply) <==>
      exists led, t :: (led == "0" || led == "1") && IsNumber(t) && reply == StatusLine(led, t)
  {
    if ValidReply(Status, reply) {
      var led, t := [reply[11]], reply[23..];
      assert reply[12..] == " UPTIME_MS=" + t;
      assert reply == StatusLine(led, t);
    }
    if led, t :| (led == "0" || led == "1") && IsNumber(t) && reply == StatusLine(led, t) {
      assert reply[12..] == " UPTIME_MS=" + t;
      assert reply[23..] == t;
      assert reply[11] == led[0];
    }
  }

  /** A successful request: the reply is the line received, valid for the request and short
      enough, and the last reading of the clock is still before the one deadline. */
  lemma SuccessMeans(text: string, buffer: string, size: int, timeoutMs: int, env: Env)
    requires Transaction(text, buffer, size, timeoutMs, env).Success?
    ensures ParseRequest(text).Some? && env.start.Some? && env.end.Some?
    ensures var reply := Transaction(text, buffer, size, timeoutMs, env).buffer;
      var r := Receive("", false, env.turns, env.start.value + timeoutMs);
      && r.outcome == Line(reply) && ValidReply(ParseRequest(text).value, reply)
      && |reply| < size && |reply| <= 127 && D.AllPrintable(reply)
      && |Bytes(env.turns[..r.used])| <= 129
    ensures env.end.value < env.start.value + timeoutMs
  {
    ReceiveExact(env.turns, env.start.value + timeoutMs);
  }
}

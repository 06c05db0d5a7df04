/** The command parser, src/parser.c. A line is a C string, given without its NUL. */
module Parser {
  import opened Options
  import opened CType
  import opened Numbers

  const MAX_TOKEN: nat := 128
  const TOKEN_SIZE: nat := 256
  const MAX_ARGS: nat := 64

  datatype Token = Word(text: string) | RedirectOut | RedirectAppend | RedirectIn | Pipe | Background

  // ---------------------------------------------------------------- tokens

  predicate IsSpecial(c: char) {
    c == '>' || c == '<' || c == '|' || c == '&'
  }

  predicate WordChar(c: char) {
    !IsSpace(c) && !IsSpecial(c)
  }

  /** The length of the word at the front of the line. */
  function WordLength(line: string): (n: nat)
    ensures n <= |line|
    ensures forall i :: 0 <= i < n ==> WordChar(line[i])
    ensures n < |line| ==> !WordChar(line[n])
  {
    if line == [] || !WordChar(line[0]) then 0
    else
      var n := WordLength(line[1..]);
      assert forall i :: 0 < i <= n ==> line[i] == line[1..][i - 1];
      1 + n
  }

  /** The token at the front of a line that does not start with space, and its length. */
  function Front(line: string): (r: (Token, nat))
    requires line != [] && !IsSpace(line[0])
    ensures 0 < r.1 <= |line|
  {
    if line[0] == '>' then
      if |line| > 1 && line[1] == '>' then (RedirectAppend, 2) else (RedirectOut, 1)
    else if line[0] == '<' then (RedirectIn, 1)
    else if line[0] == '|' then (Pipe, 1)
    else if line[0] == '&' then (Background, 1)
    else (Word(line[..WordLength(line)]), WordLength(line))
  }

  /** All tokens of a line, without limits. */
  function Scan(line: string): seq<Token>
    decreases |line|
  {
    if line == [] then []
    else if IsSpace(line[0]) then Scan(line[1..])
    else [Front(line).0] + Scan(line[Front(line).1..])
  }

  predicate TooLongWord(t: Token) {
    t.Word? && |t.text| >= TOKEN_SIZE
  }

  datatype Tokenized = Tokens(tokens: seq<Token>) | TooMany | TooLong

  /** The limits: 128 tokens, each shorter than 256; the first token over a limit decides. */
  function Limited(ts: seq<Token>): Tokenized {
    if exists i :: 0 <= i < |ts| && i < MAX_TOKEN && TooLongWord(ts[i]) then TooLong
    else if |ts| > MAX_TOKEN then TooMany
    else Tokens(ts)
  }

  predicate WithinLimits(list: seq<Token>) {
    |list| <= MAX_TOKEN && forall i :: 0 <= i < |list| ==> !TooLongWord(list[i])
  }

  /** `token_push`. */
  method Push(list: seq<Token>, t: Token) returns (ok: bool, list': seq<Token>, result: Tokenized)
    requires WithinLimits(list)
    ensures ok ==> list' == list + [t] && WithinLimits(list')
    ensures !ok ==> forall rest :: Limited(list + [t] + rest) == result
  {
    if |list| >= MAX_TOKEN {
      forall rest ensures Limited(list + [t] + rest) == TooMany {
        var ts := list + [t] + rest;
        assert forall i :: 0 <= i < MAX_TOKEN ==> ts[i] == list[i];
      }
      return false, list, TooMany;
    }
    if TooLongWord(t) {
      forall rest ensures Limited(list + [t] + rest) == TooLong {
        assert (list + [t] + rest)[|list|] == t;
      }
      return false, list, TooLong;
    }
    return true, list + [t], Tokens(list);
  }

  /** The word loop. */
  method WordAt(line: string, p: nat) returns (n: nat)
    requires p < |line|
    ensures n == WordLength(line[p..])
  {
    var rest := line[p..];
    n := 0;
    while p + n < |line| && !IsSpace(line[p + n]) && !IsSpecial(line[p + n])
      invariant p + n <= |line|
      invariant forall i :: 0 <= i < n ==> WordChar(rest[i])
    {
      n := n + 1;
    }
  }

  /** The token at p, where there is no space. */
  method TokenAt(line: string, p: nat) returns (t: Token, n: nat)
    requires p < |line| && !IsSpace(line[p])
    ensures (t, n) == Front(line[p..])
  {
    if line[p] == '>' {
      if p + 1 < |line| && line[p + 1] == '>' {
        return RedirectAppend, 2;
      }
      return RedirectOut, 1;
    }
    if line[p] == '<' {
      return RedirectIn, 1;
    }
    if line[p] == '|' {
      return Pipe, 1;
    }
    if line[p] == '&' {
      return Background, 1;
    }
    n := WordAt(line, p);
    t := Word(line[p..p + n]);
    assert line[p..][..n] == line[p..p + n];
  }

  lemma ScanSkips(line: string, p: nat)
    requires p < |line| && IsSpace(line[p])
    ensures Scan(line[p..]) == Scan(line[p + 1..])
  {
  }

  lemma ScanTakes(line: string, p: nat)
    requires p < |line| && !IsSpace(line[p])
    ensures Scan(line[p..]) == [Front(line[p..]).0] + Scan(line[p + Front(line[p..]).1..])
  {
  }

  /** `tokenize`. */
  method Tokenize(line: string) returns (r: Tokenized)
    ensures r == Limited(Scan(line))
  {
    hide Scan, Front;
    var list, p := [], 0;
    assert line[0..] == line;
    while p < |line|
      invariant p <= |line| && WithinLimits(list)
      invariant Scan(line) == list + Scan(line[p..])
    {
      if IsSpace(line[p]) {
        ScanSkips(line, p);
        p := p + 1;
      } else {
        var t, n := TokenAt(line, p);
        ScanTakes(line, p);
        assert Scan(line) == list + [t] + Scan(line[p + n..]);
        var ok, list', failure := Push(list, t);
        if !ok {
          return failure;
        }
        list, p := list', p + n;
      }
    }
    ScanNothing();
    assert line[p..] == [];
    r := Tokens(list);
  }

  lemma ScanNothing()
    ensures Scan("") == []
  {
  }

  // ---------------------------------------------------------------- commands

  datatype Stage = Stage(args: seq<string>, input: Option<string>, output: Option<string>, append: bool)

  datatype Chain = Chain(stages: seq<Stage>, background: bool)

  const NEW_STAGE := Stage([], None, None, false)

  datatype SyntaxError =
    | TooManyArguments | ExpectedFilename | DuplicateInput | DuplicateOutput
    | AmpersandNotLast | MissingCommand | ExpectedCommand

  datatype Built = Command(chain: Chain) | Refused(error: SyntaxError)

  newtype Int32 = n: int | -0x8000_0000 <= n < 0x8000_0000

  /** "%d". */
  function Signed(n: Int32): string {
    if n < 0 then "-" + Decimal(-(n as int)) else Decimal(n as int)
  }

  const LAST_STATUS := "$?"

  /** A word as it ends up in argv. */
  function Expanded(text: string, status: Int32): string {
    if text == LAST_STATUS then Signed(status) else text
  }

  function Last(stages: seq<Stage>): Stage
    requires stages != []
  {
    stages[|stages| - 1]
  }

  function SetLast(stages: seq<Stage>, s: Stage): (r: seq<Stage>)
    requires stages != []
    ensures |r| == |stages| && r[..|r| - 1] == stages[..|stages| - 1] && Last(r) == s
  {
    stages[|stages| - 1 := s]
  }

  predicate NamesFile(ts: seq<Token>) {
    |ts| > 1 && ts[1].Word?
  }

  /** One turn of the loop of `build_command`: new stages and how many tokens it used, or the end. */
  datatype Turn = Next(stages: seq<Stage>, used: nat) | Stop(result: Built)

  function Step(stages: seq<Stage>, ts: seq<Token>, status: Int32): (r: Turn)
    requires stages != [] && ts != []
    ensures r.Next? ==> r.stages != [] && 0 < r.used <= |ts|
  {
    var cur := Last(stages);
    match ts[0]
    case Word(text) =>
      if |cur.args| >= MAX_ARGS - 1 then Stop(Refused(TooManyArguments))
      else Next(SetLast(stages, cur.(args := cur.args + [Expanded(text, status)])), 1)
    case RedirectIn =>
      if !NamesFile(ts) then Stop(Refused(ExpectedFilename))
      else if cur.input.Some? then Stop(Refused(DuplicateInput))
      else Next(SetLast(stages, cur.(input := Some(ts[1].text))), 2)
    case RedirectOut =>
      if !NamesFile(ts) then Stop(Refused(ExpectedFilename))
      else if cur.output.Some? then Stop(Refused(DuplicateOutput))
      else Next(SetLast(stages, cur.(output := Some(ts[1].text), append := false)), 2)
    case RedirectAppend =>
      if !NamesFile(ts) then Stop(Refused(ExpectedFilename))
      else if cur.output.Some? then Stop(Refused(DuplicateOutput))
      else Next(SetLast(stages, cur.(output := Some(ts[1].text), append := true)), 2)
    case Background =>
      Stop(if |ts| != 1 then Refused(AmpersandNotLast) else Complete(stages, true))
    case Pipe =>
      if cur.args == [] then Stop(Refused(MissingCommand))
      else if !NamesFile(ts) then Stop(Refused(ExpectedCommand))
      else Next(stages + [NEW_STAGE], 1)
  }

  /** `build_command` from the stages built so far, the last being the current one. */
  function BuildFrom(stages: seq<Stage>, ts: seq<Token>, status: Int32): Built
    requires stages != []
    decreases |ts|
  {
    if ts == [] then Complete(stages, false)
    else
      match Step(stages, ts, status)
      case Stop(result) => result
      case Next(stages', used) => BuildFrom(stages', ts[used..], status)
  }

  /** The final pass over the chain. */
  function Complete(stages: seq<Stage>, background: bool): Built {
    if exists k :: 0 <= k < |stages| && stages[k].args == [] then Refused(MissingCommand)
    else Command(Chain(stages, background))
  }

  function Build(ts: seq<Token>, status: Int32): Built {
    BuildFrom([NEW_STAGE], ts, status)
  }

  /** The final loop over the chain. */
  method CheckStages(stages: seq<Stage>, background: bool) returns (r: Built)
    ensures r == Complete(stages, background)
  {
    for k := 0 to |stages|
      invariant forall j :: 0 <= j < k ==> stages[j].args != []
    {
      if stages[k].args == [] {
        return Refused(MissingCommand);
      }
    }
    r := Command(Chain(stages, background));
  }

  /** The switch of `build_command` at token i. */
  method TakeToken(stages: seq<Stage>, ts: seq<Token>, i: nat, status: Int32) returns (r: Turn)
    requires stages != [] && i < |ts|
    ensures r == Step(stages, ts[i..], status)
  {
    var cur := Last(stages);
    ghost var at := ts[i..];
    assert i + 1 < |ts| ==> at[1] == ts[i + 1];
    match ts[i] {
      case Word(text) =>
        if |cur.args| >= MAX_ARGS - 1 {
          return Stop(Refused(TooManyArguments));
        }
        r := Next(SetLast(stages, cur.(args := cur.args + [Expanded(text, status)])), 1);
      case RedirectIn =>
        if i + 1 >= |ts| || !ts[i + 1].Word? {
          return Stop(Refused(ExpectedFilename));
        }
        if cur.input.Some? {
          return Stop(Refused(DuplicateInput));
        }
        r := Next(SetLast(stages, cur.(input := Some(ts[i + 1].text))), 2);
      case RedirectOut =>
        if i + 1 >= |ts| || !ts[i + 1].Word? {
          return Stop(Refused(ExpectedFilename));
        }
        if cur.output.Some? {
          return Stop(Refused(DuplicateOutput));
        }
        r := Next(SetLast(stages, cur.(output := Some(ts[i + 1].text), append := false)), 2);
      case RedirectAppend =>
        if i + 1 >= |ts| || !ts[i + 1].Word? {
          return Stop(Refused(ExpectedFilename));
        }
        if cur.output.Some? {
          return Stop(Refused(DuplicateOutput));
        }
        r := Next(SetLast(stages, cur.(output := Some(ts[i + 1].text), append := true)), 2);
      case Background =>
        if i != |ts| - 1 {
          return Stop(Refused(AmpersandNotLast));
        }
        var done := CheckStages(stages, true);
        r := Stop(done);
      case Pipe =>
        if cur.args == [] {
          return Stop(Refused(MissingCommand));
        }
        if i + 1 >= |ts| || !ts[i + 1].Word? {
          return Stop(Refused(ExpectedCommand));
        }
        r := Next(stages + [NEW_STAGE], 1);
    }
  }

  /** How many tokens or redirections are taken before the build ends; each costs one allocation,
      and the first stage one more. */
  function Turns(stages: seq<Stage>, ts: seq<Token>, status: Int32): nat
    requires stages != []
    decreases |ts|
  {
    if ts == [] then 0
    else
      match Step(stages, ts, status)
      case Stop(_) => 0
      case Next(stages', used) => 1 + Turns(stages', ts[used..], status)
  }

  /** Some allocation of the build fails; allocation k succeeds iff `memory(k)`. */
  predicate RunsOut(ts: seq<Token>, status: Int32, memory: nat -> bool) {
    exists k :: 0 <= k <= Turns([NEW_STAGE], ts, status) && !memory(k)
  }

  /** `build_command`; None when memory runs out. */
  method BuildCommand(ts: seq<Token>, status: Int32, memory: nat -> bool) returns (r: Option<Built>)
    ensures r == if RunsOut(ts, status, memory) then None else Some(Build(ts, status))
  {
    hide Step, Complete;
    if !memory(0) {
      return None;
    }
    var stages, i, n := [NEW_STAGE], 0, 0;
    assert ts[0..] == ts;
    while i < |ts|
      invariant i <= |ts| && stages != []
      invariant Build(ts, status) == BuildFrom(stages, ts[i..], status)
      invariant Turns([NEW_STAGE], ts, status) == n + Turns(stages, ts[i..], status)
      invariant forall k :: 0 <= k <= n ==> memory(k)
      decreases |ts| - i
    {
      var turn := TakeToken(stages, ts, i, status);
      if turn.Stop? {
        return Some(turn.result);
      }
      assert ts[i..][turn.used..] == ts[i + turn.used..];
      n := n + 1;
      if !memory(n) {
        return None;
      }
      stages, i := turn.stages, i + turn.used;
    }
    assert ts[i..] == [];
    var built := CheckStages(stages, false);
    r := Some(built);
  }

  datatype Parsed = Nothing | Parsed(chain: Chain) | BadTokens(why: Tokenized) | BadSyntax(error: SyntaxError)

  /** What `parse_line` makes of a line. */
  function Parse(line: string, status: Int32): Parsed {
    match Limited(Scan(line))
    case TooMany => BadTokens(TooMany)
    case TooLong => BadTokens(TooLong)
    case Tokens(ts) =>
      if ts == [] then Nothing
      else
        match Build(ts, status)
        case Command(chain) => Parsed.Parsed(chain)
        case Refused(e) => BadSyntax(e)
  }

  /** `parse_line`; None when memory runs out. */
  method ParseLine(line: string, status: Int32, memory: nat -> bool) returns (r: Option<Parsed>)
    ensures r.Some? ==> r.value == Parse(line, status)
    ensures r.None? <==>
      var ts := Scan(line); ts != [] && Limited(ts).Tokens? && RunsOut(ts, status, memory)
  {
    hide Scan, Build, RunsOut;
    var tokens := Tokenize(line);
    if !tokens.Tokens? {
      return Some(BadTokens(tokens));
    }
    if tokens.tokens == [] {
      return Some(Nothing);
    }
    var built := BuildCommand(tokens.tokens, status, memory);
    match built {
      case None => r := None;
      case Some(Command(chain)) => r := Some(Parsed.Parsed(chain));
      case Some(Refused(e)) => r := Some(BadSyntax(e));
    }
  }
}

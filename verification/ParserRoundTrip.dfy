/** Printing command chains and parsing them back. */
module ParserRoundTrip {
  import opened Options
  import opened CType
  import opened Numbers
  import opened Parser

  // ---------------------------------------------------------------- the printer

  function Words(args: seq<string>): (ts: seq<Token>)
    ensures |ts| == |args| && forall i :: 0 <= i < |ts| ==> ts[i] == Word(args[i])
  {
    if args == [] then [] else [Word(args[0])] + Words(args[1..])
  }

  function Redirects(s: Stage): seq<Token> {
    (if s.input.Some? then [RedirectIn, Word(s.input.value)] else []) +
    (if s.output.Some? then [if s.append then RedirectAppend else RedirectOut, Word(s.output.value)] else [])
  }

  function StageTokens(s: Stage): seq<Token> {
    Words(s.args) + Redirects(s)
  }

  /** The stages from the given one on, joined by pipes. */
  function StagesTokens(stages: seq<Stage>): seq<Token> {
    if stages == [] then []
    else if |stages| == 1 then StageTokens(stages[0])
    else StageTokens(stages[0]) + [Pipe] + StagesTokens(stages[1..])
  }

  function ChainTokens(c: Chain): seq<Token> {
    StagesTokens(c.stages) + if c.background then [Background] else []
  }

  function TokenText(t: Token): string {
    match t
    case Word(text) => text
    case RedirectOut => ">"
    case RedirectAppend => ">>"
    case RedirectIn => "<"
    case Pipe => "|"
    case Background => "&"
  }

  /** Every token followed by one space. */
  function Render(ts: seq<Token>): string {
    if ts == [] then "" else TokenText(ts[0]) + " " + Render(ts[1..])
  }

  function Print(c: Chain): string {
    Render(ChainTokens(c))
  }

  // ---------------------------------------------------------------- what can be printed

  predicate GoodWord(w: string) {
    0 < |w| < TOKEN_SIZE && forall i :: 0 <= i < |w| ==> WordChar(w[i])
  }

  predicate GoodStage(s: Stage) {
    && 1 <= |s.args| <= MAX_ARGS - 1
    && (forall i :: 0 <= i < |s.args| ==> GoodWord(s.args[i]) && s.args[i] != LAST_STATUS)
    && (s.input.Some? ==> GoodWord(s.input.value))
    && (s.output.Some? ==> GoodWord(s.output.value))
    && (s.append ==> s.output.Some?)
  }

  /** Chains the parser can produce: at least one stage, each with 1 to 63 proper words. */
  predicate WellFormed(c: Chain) {
    && c.stages != []
    && (forall k :: 0 <= k < |c.stages| ==> GoodStage(c.stages[k]))
    && |ChainTokens(c)| <= MAX_TOKEN
  }

  predicate GoodTokens(ts: seq<Token>) {
    forall i :: 0 <= i < |ts| && ts[i].Word? ==> GoodWord(ts[i].text)
  }

  // ---------------------------------------------------------------- tokens survive

  lemma {:induction false} WordLengthStops(w: string, rest: string)
    requires forall i :: 0 <= i < |w| ==> WordChar(w[i])
    requires rest != [] && !WordChar(rest[0])
    ensures WordLength(w + rest) == |w|
  {
    var n := WordLength(w + rest);
    assert n <= |w| by {
      assert (w + rest)[|w|] == rest[0];
    }
  }

  lemma {:induction false} ScanRender(ts: seq<Token>)
    requires GoodTokens(ts)
    ensures Scan(Render(ts)) == ts
  {
    if ts != [] {
      var t, rest := ts[0], " " + Render(ts[1..]);
      ScanRender(ts[1..]);
      assert rest[1..] == Render(ts[1..]);
      assert Scan(rest) == ts[1..];
      var line := TokenText(t) + rest;
      assert Render(ts) == line;
      if t.Word? {
        WordLengthStops(t.text, rest);
        assert line[..|t.text|] == t.text && line[|t.text|..] == rest;
        assert WordChar(line[0]);
      } else if t == RedirectAppend {
        assert line[2..] == rest;
      } else {
        assert line[1..] == rest;
      }
    }
  }

  // ---------------------------------------------------------------- commands survive

  lemma BuildWord(stages: seq<Stage>, word: string, rest: seq<Token>, status: Int32)
    requires stages != [] && |Last(stages).args| < MAX_ARGS - 1 && word != LAST_STATUS
    ensures var s := Last(stages);
      BuildFrom(stages, [Word(word)] + rest, status) ==
      BuildFrom(SetLast(stages, s.(args := s.args + [word])), rest, status)
  {
  }

  lemma WordsFirst(args: seq<string>, rest: seq<Token>)
    requires args != []
    ensures Words(args) + rest == [Word(args[0])] + (Words(args[1..]) + rest)
  {
  }

  lemma AppendArgs(s: Stage, args: seq<string>)
    requires args != []
    ensures var more := s.(args := s.args + [args[0]]);
      more.(args := more.args + args[1..]) == s.(args := s.args + args)
  {
  }

  lemma SetLastTwice(stages: seq<Stage>, a: Stage, b: Stage)
    requires stages != []
    ensures SetLast(SetLast(stages, a), b) == SetLast(stages, b)
    ensures SetLast(stages, Last(stages)) == stages
  {
  }

  lemma {:induction false} BuildWords(stages: seq<Stage>, s: Stage, args: seq<string>, rest: seq<Token>, status: Int32)
    requires stages != [] && Last(stages) == s && |s.args| + |args| <= MAX_ARGS - 1
    requires forall i :: 0 <= i < |args| ==> args[i] != LAST_STATUS
    ensures BuildFrom(stages, Words(args) + rest, status) ==
      BuildFrom(SetLast(stages, s.(args := s.args + args)), rest, status)
    decreases |args|
  {
    hide BuildFrom, SetLast, Words;
    if args == [] {
      assert Words(args) + rest == rest;
      assert s.args + args == s.args;
      SetLastTwice(stages, s, s);
    } else {
      var more := s.(args := s.args + [args[0]]);
      var full := s.(args := s.args + args);
      var tail := Words(args[1..]) + rest;
      BuildWord(stages, args[0], tail, status);
      BuildWords(SetLast(stages, more), more, args[1..], rest, status);
      SetLastTwice(stages, more, full);
      WordsFirst(args, rest);
      AppendArgs(s, args);
    }
  }

  lemma BuildRedirects(stages: seq<Stage>, s: Stage, rest: seq<Token>, status: Int32)
    requires stages != [] && GoodStage(s) && Last(stages) == Stage(s.args, None, None, false)
    ensures BuildFrom(stages, Redirects(s) + rest, status) == BuildFrom(SetLast(stages, s), rest, status)
  {
    var out := if s.output.Some? then [if s.append then RedirectAppend else RedirectOut, Word(s.output.value)] else [];
    var middle := Last(stages).(input := s.input);
    if s.input.Some? {
      var ts := Redirects(s) + rest;
      assert ts[0] == RedirectIn && ts[1] == Word(s.input.value) && ts[2..] == out + rest;
    } else {
      assert Redirects(s) + rest == out + rest;
      assert SetLast(stages, middle) == stages;
    }
    assert BuildFrom(stages, Redirects(s) + rest, status) == BuildFrom(SetLast(stages, middle), out + rest, status);
    BuildOutput(SetLast(stages, middle), s, rest, status);
    assert SetLast(SetLast(stages, middle), s) == SetLast(stages, s);
  }

  lemma BuildOutput(stages: seq<Stage>, s: Stage, rest: seq<Token>, status: Int32)
    requires stages != [] && GoodStage(s) && Last(stages) == Stage(s.args, s.input, None, false)
    ensures var arrow := if s.append then RedirectAppend else RedirectOut;
      var out := if s.output.Some? then [arrow, Word(s.output.value)] else [];
      BuildFrom(stages, out + rest, status) == BuildFrom(SetLast(stages, s), rest, status)
  {
    if s.output.Some? {
      var ts := [if s.append then RedirectAppend else RedirectOut, Word(s.output.value)] + rest;
      assert ts[2..] == rest;
    } else {
      assert [] + rest == rest;
      assert SetLast(stages, s) == stages;
    }
  }

  /** A fresh current stage followed by the print of s becomes s. */
  lemma BuildStage(done: seq<Stage>, s: Stage, rest: seq<Token>, status: Int32)
    requires GoodStage(s)
    ensures BuildFrom(done + [NEW_STAGE], StageTokens(s) + rest, status) == BuildFrom(done + [s], rest, status)
  {
    var start := done + [NEW_STAGE];
    assert StageTokens(s) + rest == Words(s.args) + (Redirects(s) + rest);
    BuildWords(start, NEW_STAGE, s.args, Redirects(s) + rest, status);
    assert [] + s.args == s.args;
    var worded := SetLast(start, Stage(s.args, None, None, false));
    BuildRedirects(worded, s, rest, status);
    assert SetLast(worded, s) == done + [s];
  }

  lemma BuildPipe(stages: seq<Stage>, tail: seq<Token>, status: Int32)
    requires stages != [] && Last(stages).args != [] && tail != [] && tail[0].Word?
    ensures BuildFrom(stages, [Pipe] + tail, status) == BuildFrom(stages + [NEW_STAGE], tail, status)
  {
  }

  lemma {:induction false} BuildStages(done: seq<Stage>, stages: seq<Stage>, rest: seq<Token>, status: Int32)
    requires stages != [] && forall k :: 0 <= k < |stages| ==> GoodStage(stages[k])
    ensures BuildFrom(done + [NEW_STAGE], StagesTokens(stages) + rest, status) == BuildFrom(done + stages, rest, status)
    decreases |stages|
  {
    hide BuildFrom, StageTokens;
    var s := stages[0];
    if |stages| == 1 {
      BuildStage(done, s, rest, status);
      assert done + stages == done + [s];
    } else {
      var tail := StagesTokens(stages[1..]) + rest;
      assert StagesTokens(stages) + rest == StageTokens(s) + ([Pipe] + tail);
      BuildStage(done, s, [Pipe] + tail, status);
      StartsWithWord(stages[1..]);
      BuildPipe(done + [s], tail, status);
      BuildStages(done + [s], stages[1..], rest, status);
      assert done + [s] + stages[1..] == done + stages;
    }
  }

  lemma StartsWithWord(stages: seq<Stage>)
    requires stages != [] && GoodStage(stages[0])
    ensures StagesTokens(stages) != [] && StagesTokens(stages)[0].Word?
  {
  }

  lemma BuildChain(c: Chain, status: Int32)
    requires c.stages != [] && forall k :: 0 <= k < |c.stages| ==> GoodStage(c.stages[k])
    ensures Build(ChainTokens(c), status) == Command(c)
  {
    var rest := if c.background then [Background] else [];
    BuildStages([], c.stages, rest, status);
    assert [] + [NEW_STAGE] == [NEW_STAGE];
    assert [] + c.stages == c.stages;
  }

  lemma {:induction false} StagesTokensGood(stages: seq<Stage>)
    requires forall k :: 0 <= k < |stages| ==> GoodStage(stages[k])
    ensures GoodTokens(StagesTokens(stages))
  {
    if stages != [] {
      StagesTokensGood(stages[1..]);
    }
  }

  /** Every well-formed chain is recovered from its print, whatever the last status. */
  lemma PrintThenParse(c: Chain, status: Int32)
    requires WellFormed(c)
    ensures Parse(Print(c), status) == Parser.Parsed.Parsed(c)
  {
    var ts := ChainTokens(c);
    StagesTokensGood(c.stages);
    ScanRender(ts);
    StartsWithWord(c.stages);
    BuildChain(c, status);
    assert forall i :: 0 <= i < |ts| ==> !TooLongWord(ts[i]);
  }

  // ---------------------------------------------------------------- what the parser returns

  lemma {:induction false} ScanGood(line: string)
    ensures forall i :: 0 <= i < |Scan(line)| && Scan(line)[i].Word? ==>
      |Scan(line)[i].text| > 0 && forall k :: 0 <= k < |Scan(line)[i].text| ==> WordChar(Scan(line)[i].text[k])
    decreases |line|
  {
    if line == [] {
    } else if IsSpace(line[0]) {
      ScanGood(line[1..]);
    } else {
      ScanGood(line[Front(line).1..]);
    }
  }

  /** A stage under construction. */
  predicate PartStage(s: Stage) {
    && |s.args| <= MAX_ARGS - 1
    && (forall i :: 0 <= i < |s.args| ==> GoodWord(s.args[i]) && s.args[i] != LAST_STATUS)
    && (s.input.Some? ==> GoodWord(s.input.value))
    && (s.output.Some? ==> GoodWord(s.output.value))
    && (s.append ==> s.output.Some?)
  }

  predicate PartStages(stages: seq<Stage>) {
    && stages != []
    && (forall k :: 0 <= k < |stages| - 1 ==> GoodStage(stages[k]))
    && PartStage(Last(stages))
  }

  lemma {:induction false} SizeSetLast(stages: seq<Stage>, s: Stage)
    requires stages != []
    ensures |StagesTokens(SetLast(stages, s))| ==
      |StagesTokens(stages)| - |StageTokens(Last(stages))| + |StageTokens(s)|
    decreases |stages|
  {
    if |stages| > 1 {
      assert SetLast(stages, s)[1..] == SetLast(stages[1..], s);
      SizeSetLast(stages[1..], s);
    }
  }

  lemma {:induction false} SizeNewStage(stages: seq<Stage>)
    requires stages != []
    ensures |StagesTokens(stages + [NEW_STAGE])| == |StagesTokens(stages)| + 1
    decreases |stages|
  {
    assert StageTokens(NEW_STAGE) == [];
    assert (stages + [NEW_STAGE])[1..] == stages[1..] + [NEW_STAGE];
    if |stages| > 1 {
      SizeNewStage(stages[1..]);
    } else {
      assert stages[1..] + [NEW_STAGE] == [NEW_STAGE];
      assert StagesTokens([NEW_STAGE]) == [];
    }
  }

  lemma SignedIsGood(n: Int32)
    ensures GoodWord(Signed(n)) && Signed(n) != LAST_STATUS
  {
    var m := if n < 0 then -(n as int) else n as int;
    Uint32Length(m);
    var w := Signed(n);
    assert forall i :: 0 <= i < |Decimal(m)| ==> IsDigit(Decimal(m)[i]);
    assert w[0] == '-' || IsDigit(w[0]);
  }

  /** What one more token or redirection makes of the stages. */
  lemma Adds(stages: seq<Stage>, s: Stage, n: nat)
    requires PartStages(stages) && PartStage(s) && |StageTokens(s)| == |StageTokens(Last(stages))| + n
    ensures PartStages(SetLast(stages, s)) && |StagesTokens(SetLast(stages, s))| == |StagesTokens(stages)| + n
  {
    SizeSetLast(stages, s);
    var r := SetLast(stages, s);
    assert forall k :: 0 <= k < |r| - 1 ==> r[k] == r[..|r| - 1][k] == stages[k];
  }

  /** Refused, or a chain of good stages that prints to n tokens. */
  predicate GoodResult(r: Built, n: nat) {
    r.Command? ==>
      && r.chain.stages != []
      && (forall k :: 0 <= k < |r.chain.stages| ==> GoodStage(r.chain.stages[k]))
      && |ChainTokens(r.chain)| == n
  }

  lemma CompleteIsGood(stages: seq<Stage>, background: bool)
    requires PartStages(stages)
    ensures GoodResult(Complete(stages, background), |StagesTokens(stages)| + if background then 1 else 0)
  {
  }

  lemma WordAdds(stages: seq<Stage>, text: string, status: Int32)
    requires PartStages(stages) && GoodWord(text) && |Last(stages).args| < MAX_ARGS - 1
    ensures var cur := Last(stages); var r := SetLast(stages, cur.(args := cur.args + [Expanded(text, status)]));
      PartStages(r) && |StagesTokens(r)| == |StagesTokens(stages)| + 1
  {
    SignedIsGood(status);
    var cur := Last(stages);
    Adds(stages, cur.(args := cur.args + [Expanded(text, status)]), 1);
  }

  lemma InputAdds(stages: seq<Stage>, file: string)
    requires PartStages(stages) && GoodWord(file) && Last(stages).input.None?
    ensures var r := SetLast(stages, Last(stages).(input := Some(file)));
      PartStages(r) && |StagesTokens(r)| == |StagesTokens(stages)| + 2
  {
    Adds(stages, Last(stages).(input := Some(file)), 2);
  }

  lemma OutputAdds(stages: seq<Stage>, file: string, append: bool)
    requires PartStages(stages) && GoodWord(file) && Last(stages).output.None?
    ensures var r := SetLast(stages, Last(stages).(output := Some(file), append := append));
      PartStages(r) && |StagesTokens(r)| == |StagesTokens(stages)| + 2
  {
    Adds(stages, Last(stages).(output := Some(file), append := append), 2);
  }

  lemma NewStageIsPart(stages: seq<Stage>)
    requires PartStages(stages) && Last(stages).args != []
    ensures PartStages(stages + [NEW_STAGE])
  {
  }

  lemma PipeAdds(stages: seq<Stage>)
    requires PartStages(stages) && Last(stages).args != []
    ensures PartStages(stages + [NEW_STAGE]) && |StagesTokens(stages + [NEW_STAGE])| == |StagesTokens(stages)| + 1
  {
    NewStageIsPart(stages);
    SizeNewStage(stages);
  }

  /** What a turn of the build makes of part stages and n more tokens. */
  predicate GoodTurn(stages: seq<Stage>, n: nat, r: Turn) {
    match r
    case Stop(result) => GoodResult(result, |StagesTokens(stages)| + n)
    case Next(stages', used) => PartStages(stages') && |StagesTokens(stages')| == |StagesTokens(stages)| + used
  }

  lemma RedirectIsGood(stages: seq<Stage>, ts: seq<Token>, status: Int32)
    requires PartStages(stages) && stages != [] && GoodTokens(ts) && ts != []
    requires ts[0] in {RedirectIn, RedirectOut, RedirectAppend}
    ensures GoodTurn(stages, |ts|, Step(stages, ts, status))
  {
    hide PartStages, GoodResult, StagesTokens, SetLast, GoodWord;
    var r := Step(stages, ts, status);
    if r.Stop? {
      RefusedIsGood(r.result, |StagesTokens(stages)| + |ts|);
    } else if ts[0] == RedirectIn {
      InputAdds(stages, ts[1].text);
    } else {
      OutputAdds(stages, ts[1].text, ts[0] == RedirectAppend);
    }
  }

  lemma OtherIsGood(stages: seq<Stage>, ts: seq<Token>, status: Int32)
    requires PartStages(stages) && stages != [] && GoodTokens(ts) && ts != []
    requires ts[0] !in {RedirectIn, RedirectOut, RedirectAppend}
    ensures GoodTurn(stages, |ts|, Step(stages, ts, status))
  {
    hide PartStages, GoodResult, StagesTokens, Complete, SetLast, GoodWord, Expanded;
    var r := Step(stages, ts, status);
    if r.Stop? && r.result.Refused? {
      RefusedIsGood(r.result, |StagesTokens(stages)| + |ts|);
    } else {
      match ts[0]
      case Word(text) => WordAdds(stages, text, status);
      case Pipe => PipeAdds(stages);
      case Background => CompleteIsGood(stages, true);
    }
  }

  lemma StepIsGood(stages: seq<Stage>, ts: seq<Token>, status: Int32)
    requires PartStages(stages) && GoodTokens(ts) && ts != []
    ensures stages != [] && GoodTurn(stages, |ts|, Step(stages, ts, status))
  {
    assert stages != [];
    hide PartStages, GoodTokens, GoodTurn, Step;
    if ts[0] in {RedirectIn, RedirectOut, RedirectAppend} {
      RedirectIsGood(stages, ts, status);
    } else {
      OtherIsGood(stages, ts, status);
    }
  }

  lemma BuildFromUnfolds(stages: seq<Stage>, ts: seq<Token>, status: Int32)
    requires stages != []
    ensures ts == [] ==> BuildFrom(stages, ts, status) == Complete(stages, false)
    ensures ts != [] && Step(stages, ts, status).Stop? ==>
      BuildFrom(stages, ts, status) == Step(stages, ts, status).result
    ensures ts != [] && Step(stages, ts, status).Next? ==>
      BuildFrom(stages, ts, status) ==
      BuildFrom(Step(stages, ts, status).stages, ts[Step(stages, ts, status).used..], status)
  {
  }

  /** A successful build is well formed and has as many tokens as were read. */
  lemma {:induction false} BuildIsGood(stages: seq<Stage>, ts: seq<Token>, status: Int32, n: nat)
    requires PartStages(stages) && GoodTokens(ts) && n == |StagesTokens(stages)| + |ts|
    ensures stages != [] && GoodResult(BuildFrom(stages, ts, status), n)
    decreases |ts|
  {
    assert stages != [];
    hide PartStages, GoodResult, StagesTokens, Complete, Step, GoodTokens, BuildFrom;
    BuildFromUnfolds(stages, ts, status);
    if ts == [] {
      CompleteIsGood(stages, false);
    } else {
      StepIsGood(stages, ts, status);
      var turn := Step(stages, ts, status);
      if turn.Next? {
        GoodTokensTail(ts, turn.used);
        BuildIsGood(turn.stages, ts[turn.used..], status, n);
      }
    }
  }

  lemma GoodTokensTail(ts: seq<Token>, n: nat)
    requires GoodTokens(ts) && n <= |ts|
    ensures GoodTokens(ts[n..])
  {
  }

  lemma RefusedIsGood(r: Built, n: nat)
    requires r.Refused?
    ensures GoodResult(r, n)
  {
  }

  /** Every chain the parser returns is well formed: 1 to 63 words a stage, proper words and
      file names, at most 128 tokens. */
  lemma ParseIsWellFormed(line: string, status: Int32)
    requires Parse(line, status).Parsed?
    ensures WellFormed(Parse(line, status).chain)
  {
    var ts := Scan(line);
    ScanGood(line);
    assert StagesTokens([NEW_STAGE]) == [];
    assert GoodTokens(ts) by {
      forall i | 0 <= i < |ts| && ts[i].Word? ensures GoodWord(ts[i].text) {
        assert !TooLongWord(ts[i]);
      }
    }
    BuildIsGood([NEW_STAGE], ts, status, |ts|);
  }

  /** Whatever line was typed: printing the chain it gave and parsing that gives the chain again. */
  lemma ParseThenPrint(line: string, status: Int32, status': Int32)
    requires Parse(line, status).Parsed?
    ensures Parse(Print(Parse(line, status).chain), status') == Parse(line, status)
  {
    ParseIsWellFormed(line, status);
    PrintThenParse(Parse(line, status).chain, status');
  }

  lemma {:induction false} StagesCost(stages: seq<Stage>)
    requires stages != [] && forall k :: 0 <= k < |stages| ==> GoodStage(stages[k])
    ensures |StagesTokens(stages)| >= 2 * |stages| - 1
    decreases |stages|
  {
    if |stages| > 1 {
      StagesCost(stages[1..]);
    }
  }

  /** No parsed chain has more stages than `execute_pipeline` has room for. */
  lemma AtMost64Stages(line: string, status: Int32)
    requires Parse(line, status).Parsed?
    ensures 1 <= |Parse(line, status).chain.stages| <= 64
  {
    ParseIsWellFormed(line, status);
    StagesCost(Parse(line, status).chain.stages);
  }
}

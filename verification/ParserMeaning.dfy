/** What a sequence of tokens means as a command, without the loop that builds it. */
module ParserMeaning {
  import opened Options
  import opened Numbers
  import opened Parser
  import ParserTokens

  /** What the tokens of one stage are: words of its own, and redirections with their files. */
  datatype Item = Arg(text: string) | In(file: string) | Out(file: string, append: bool) | Broken

  predicate EndsStage(t: Token) {
    t.Pipe? || t.Background?
  }

  function RedirectItem(t: Token, file: string): Item {
    match t
    case RedirectIn => In(file)
    case RedirectOut => Out(file, false)
    case RedirectAppend => Out(file, true)
    case _ => Broken
  }

  function Items(ts: seq<Token>): seq<Item>
    decreases |ts|
  {
    if ts == [] then []
    else if ts[0].Word? then [Arg(ts[0].text)] + Items(ts[1..])
    else if !EndsStage(ts[0]) && NamesFile(ts) then [RedirectItem(ts[0], ts[1].text)] + Items(ts[2..])
    else [Broken]
  }

  function Args(items: seq<Item>): seq<string> {
    if items == [] then [] else (if items[0].Arg? then [items[0].text] else []) + Args(items[1..])
  }

  function Inputs(items: seq<Item>): seq<string> {
    if items == [] then [] else (if items[0].In? then [items[0].file] else []) + Inputs(items[1..])
  }

  function Outputs(items: seq<Item>): seq<(string, bool)> {
    if items == [] then [] else (if items[0].Out? then [(items[0].file, items[0].append)] else []) + Outputs(items[1..])
  }

  function ExpandAll(words: seq<string>, status: Int32): (r: seq<string>)
    ensures |r| == |words| && forall i :: 0 <= i < |words| ==> r[i] == Expanded(words[i], status)
  {
    if words == [] then [] else [Expanded(words[0], status)] + ExpandAll(words[1..], status)
  }

  function Count(o: Option<string>): nat {
    if o.Some? then 1 else 0
  }

  /** The stage can take these items: at most 63 words, one input and one output, nothing broken. */
  predicate Fits(s: Stage, items: seq<Item>) {
    && Broken !in items
    && |s.args| + |Args(items)| <= 63
    && Count(s.input) + |Inputs(items)| <= 1
    && Count(s.output) + |Outputs(items)| <= 1
  }

  /** And this is what it becomes: its words in order, wherever the redirections stand. */
  function With(s: Stage, items: seq<Item>, status: Int32): Stage {
    Stage(s.args + ExpandAll(Args(items), status),
          if Inputs(items) == [] then s.input else Some(Inputs(items)[0]),
          if Outputs(items) == [] then s.output else Some(Outputs(items)[0].0),
          if Outputs(items) == [] then s.append else Outputs(items)[0].1)
  }

  /** The length of the tokens up to the first '|' or '&'. */
  function StageLength(ts: seq<Token>): (n: nat)
    ensures n <= |ts| && (forall i :: 0 <= i < n ==> !EndsStage(ts[i])) && (n < |ts| ==> EndsStage(ts[n]))
  {
    if ts == [] || EndsStage(ts[0]) then 0
    else
      var n := StageLength(ts[1..]);
      assert forall i :: 1 <= i <= n ==> ts[i] == ts[1..][i - 1];
      1 + n
  }

  /** The command the tokens stand for, if they stand for one: stages of at least one word, joined by
      '|' with a word right after it, and at most a final '&'. */
  function Meaning(ts: seq<Token>, status: Int32): Option<Chain>
    decreases |ts|
  {
    var n := StageLength(ts);
    var items := Items(ts[..n]);
    var stage := With(NEW_STAGE, items, status);
    if !Fits(NEW_STAGE, items) || stage.args == [] then None
    else if n == |ts| then Some(Chain([stage], false))
    else if ts[n].Background? then if n + 1 == |ts| then Some(Chain([stage], true)) else None
    else if n + 1 < |ts| && ts[n + 1].Word? then
      match Meaning(ts[n + 1..], status)
      case None => None
      case Some(c) => Some(Chain([stage] + c.stages, c.background))
    else None
  }

  // ---------------------------------------------------------------- the loop builds it

  lemma ItemsOfWord(text: string, rest: seq<Token>)
    ensures Items([Word(text)] + rest) == [Arg(text)] + Items(rest)
  {
    assert ([Word(text)] + rest)[1..] == rest;
  }

  lemma ItemsOfRedirect(t: Token, file: string, rest: seq<Token>)
    requires !t.Word? && !EndsStage(t)
    ensures Items([t, Word(file)] + rest) == [RedirectItem(t, file)] + Items(rest)
  {
    assert ([t, Word(file)] + rest)[2..] == rest;
  }

  lemma FitsCons(s: Stage, item: Item, items: seq<Item>)
    ensures item.Arg? ==> (Fits(s, [item] + items) <==> |s.args| < 63 && Fits(s.(args := s.args + [item.text]), items))
    ensures item.In? ==> (Fits(s, [item] + items) <==> s.input.None? && Fits(s.(input := Some(item.file)), items))
    ensures item.Out? ==>
      (Fits(s, [item] + items) <==> s.output.None? && Fits(s.(output := Some(item.file), append := item.append), items))
    ensures item.Broken? ==> !Fits(s, [item] + items)
  {
    assert ([item] + items)[1..] == items;
    assert Broken in [item] + items <==> item == Broken || Broken in items;
  }

  /** What one item makes of the stage. */
  function Taking(s: Stage, item: Item, status: Int32): Stage {
    match item
    case Arg(text) => s.(args := s.args + [Expanded(text, status)])
    case In(file) => s.(input := Some(file))
    case Out(file, append) => s.(output := Some(file), append := append)
    case Broken => s
  }

  lemma ItemParts(item: Item, items: seq<Item>)
    ensures Args([item] + items) == (if item.Arg? then [item.text] else []) + Args(items)
    ensures Inputs([item] + items) == (if item.In? then [item.file] else []) + Inputs(items)
    ensures Outputs([item] + items) == (if item.Out? then [(item.file, item.append)] else []) + Outputs(items)
    ensures Broken in [item] + items <==> item == Broken || Broken in items
  {
    assert ([item] + items)[1..] == items;
  }

  lemma ExpandCons(word: string, words: seq<string>, status: Int32)
    ensures ExpandAll([word] + words, status) == [Expanded(word, status)] + ExpandAll(words, status)
  {
    hide Expanded;
    assert ([word] + words)[1..] == words;
  }

  lemma WithCons(s: Stage, item: Item, items: seq<Item>, status: Int32)
    requires Fits(s, [item] + items)
    ensures With(s, [item] + items, status) == With(Taking(s, item, status), items, status)
  {
    hide Expanded, Args, Inputs, Outputs, ExpandAll;
    ItemParts(item, items);
    match item
    case Arg(text) =>
      ExpandCons(text, Args(items), status);
      assert [] + Inputs(items) == Inputs(items) && [] + Outputs(items) == Outputs(items);
      assert s.args + ([Expanded(text, status)] + ExpandAll(Args(items), status)) ==
        s.args + [Expanded(text, status)] + ExpandAll(Args(items), status);
    case In(_) =>
      assert Inputs(items) == [] && [] + Args(items) == Args(items) && [] + Outputs(items) == Outputs(items);
    case Out(_, _) =>
      assert Outputs(items) == [] && [] + Args(items) == Args(items) && [] + Inputs(items) == Inputs(items);
    case Broken =>
  }

  /** Up to the end of the stage, the loop does what the items say, or refuses. */
  lemma {:induction false} StageBuilds(done: seq<Stage>, s: Stage, ts: seq<Token>, rest: seq<Token>, status: Int32)
    requires (forall i :: 0 <= i < |ts| ==> !EndsStage(ts[i])) && (rest != [] ==> EndsStage(rest[0]))
    ensures Fits(s, Items(ts)) ==>
      BuildFrom(done + [s], ts + rest, status) == BuildFrom(done + [With(s, Items(ts), status)], rest, status)
    ensures !Fits(s, Items(ts)) && |s.args| <= 63 ==> BuildFrom(done + [s], ts + rest, status).Refused?
    decreases |ts|
  {
    hide Fits, With, BuildFrom, Items;
    if ts == [] {
      StageEnds(s, status);
      assert ts + rest == rest;
    } else if ts[0].Word? {
      TakeWord(done, s, ts, rest, status);
      if |s.args| < 63 {
        StageBuilds(done, Taking(s, Arg(ts[0].text), status), ts[1..], rest, status);
      }
    } else if |ts| > 1 && ts[1].Word? {
      TakeRedirect(done, s, ts, rest, status);
      var item := RedirectItem(ts[0], ts[1].text);
      if Free(s, item) {
        StageBuilds(done, Taking(s, item, status), ts[2..], rest, status);
      }
    } else {
      Refuses(done, s, ts, rest, status);
    }
  }

  predicate Free(s: Stage, item: Item) {
    (item.In? ==> s.input.None?) && (item.Out? ==> s.output.None?)
  }

  lemma StageEnds(s: Stage, status: Int32)
    ensures Items([]) == [] && With(s, [], status) == s && (|s.args| <= 63 ==> Fits(s, []))
  {
  }

  lemma TakeWord(done: seq<Stage>, s: Stage, ts: seq<Token>, rest: seq<Token>, status: Int32)
    requires ts != [] && ts[0].Word?
    ensures var item, next := Arg(ts[0].text), Taking(s, Arg(ts[0].text), status);
      && Items(ts) == [item] + Items(ts[1..])
      && (Fits(s, Items(ts)) ==> |s.args| < 63 && With(s, Items(ts), status) == With(next, Items(ts[1..]), status))
      && (|s.args| < 63 ==> (Fits(s, Items(ts)) <==> Fits(next, Items(ts[1..]))))
      && (|s.args| < 63 ==>
            BuildFrom(done + [s], ts + rest, status) == BuildFrom(done + [next], ts[1..] + rest, status))
      && (|s.args| == 63 ==> BuildFrom(done + [s], ts + rest, status).Refused?)
  {
    hide With, Expanded, Complete;
    var item, items, next := Arg(ts[0].text), Items(ts[1..]), Taking(s, Arg(ts[0].text), status);
    assert ts == [ts[0]] + ts[1..];
    ItemsOfWord(ts[0].text, ts[1..]);
    FitsArg(s, next, item, items);
    if Fits(s, [item] + items) {
      WithCons(s, item, items, status);
    }
    hide Fits, Items;
    assert (ts + rest)[0] == ts[0] && (ts + rest)[1..] == ts[1..] + rest;
    assert SetLast(done + [s], next) == done + [next];
  }

  lemma FitsArg(s: Stage, next: Stage, item: Item, items: seq<Item>)
    requires item.Arg? && |next.args| == |s.args| + 1 && next.input == s.input && next.output == s.output
    ensures Fits(s, [item] + items) ==> |s.args| < 63
    ensures |s.args| < 63 ==> (Fits(s, [item] + items) <==> Fits(next, items))
  {
    FitsCons(s, item, items);
  }

  lemma TakeRedirect(done: seq<Stage>, s: Stage, ts: seq<Token>, rest: seq<Token>, status: Int32)
    requires |ts| > 1 && !ts[0].Word? && !EndsStage(ts[0]) && ts[1].Word?
    ensures var item := RedirectItem(ts[0], ts[1].text); var next := Taking(s, item, status);
      && Items(ts) == [item] + Items(ts[2..])
      && (Fits(s, Items(ts)) ==> Free(s, item) && With(s, Items(ts), status) == With(next, Items(ts[2..]), status))
      && (Free(s, item) ==> (Fits(s, Items(ts)) <==> Fits(next, Items(ts[2..]))))
      && (Free(s, item) ==>
            BuildFrom(done + [s], ts + rest, status) == BuildFrom(done + [next], ts[2..] + rest, status))
      && (!Free(s, item) ==> BuildFrom(done + [s], ts + rest, status).Refused?)
  {
    hide With, Expanded, Complete;
    var item, items := RedirectItem(ts[0], ts[1].text), Items(ts[2..]);
    var next := Taking(s, item, status);
    assert ts == [ts[0], ts[1]] + ts[2..];
    ItemsOfRedirect(ts[0], ts[1].text, ts[2..]);
    FitsCons(s, item, items);
    if Fits(s, [item] + items) {
      WithCons(s, item, items, status);
    }
    hide Fits, Items;
    var all := ts + rest;
    assert all[0] == ts[0] && all[1] == ts[1] && all[2..] == ts[2..] + rest;
    assert SetLast(done + [s], next) == done + [next];
    assert Last(done + [s]) == s;
  }

  lemma Refuses(done: seq<Stage>, s: Stage, ts: seq<Token>, rest: seq<Token>, status: Int32)
    requires ts != [] && !ts[0].Word? && !EndsStage(ts[0]) && !(|ts| > 1 && ts[1].Word?)
    requires rest != [] ==> EndsStage(rest[0])
    ensures !Fits(s, Items(ts)) && BuildFrom(done + [s], ts + rest, status).Refused?
  {
    var all := ts + rest;
    assert all[0] == ts[0];
    assert |all| > 1 ==> all[1] == if |ts| > 1 then ts[1] else rest[0];
    assert Items(ts) == [Broken];
    assert Broken in Items(ts);
    hide Complete;
  }

  /** What the loop makes of the end of a stage. */
  lemma StageEnding(done: seq<Stage>, s: Stage, rest: seq<Token>, status: Int32)
    requires (forall k :: 0 <= k < |done| ==> done[k].args != []) && (rest != [] ==> EndsStage(rest[0]))
    ensures var r := BuildFrom(done + [s], rest, status);
      if s.args == [] then r.Refused?
      else if rest == [] then r == Command(Chain(done + [s], false))
      else if rest[0].Background? then (if |rest| == 1 then r == Command(Chain(done + [s], true)) else r.Refused?)
      else if |rest| > 1 && rest[1].Word? then r == BuildFrom(done + [s] + [NEW_STAGE], rest[1..], status)
      else r.Refused?
  {
    var stages := done + [s];
    assert Last(stages) == s && stages[|done|] == s;
    assert forall k :: 0 <= k < |done| ==> stages[k] == done[k];
  }

  lemma MeaningUnfolds(ts: seq<Token>, status: Int32)
    ensures var n := StageLength(ts); var items := Items(ts[..n]); var stage := With(NEW_STAGE, items, status);
      Meaning(ts, status) ==
        if !Fits(NEW_STAGE, items) || stage.args == [] then None
        else if n == |ts| then Some(Chain([stage], false))
        else if ts[n].Background? then if n + 1 == |ts| then Some(Chain([stage], true)) else None
        else if n + 1 < |ts| && ts[n + 1].Word? then
          var m := Meaning(ts[n + 1..], status);
          if m.None? then None else Some(Chain([stage] + m.value.stages, m.value.background))
        else None
  {
    hide Fits, With, Items, StageLength;
  }

  /** The result of a build and the meaning of its tokens, after the stages already done. */
  predicate Agree(done: seq<Stage>, r: Built, m: Option<Chain>) {
    if m.Some? then r == Command(Chain(done + m.value.stages, m.value.background)) else r.Refused?
  }

  lemma AgreeCons(done: seq<Stage>, stage: Stage, r: Built, m: Option<Chain>)
    requires Agree(done + [stage], r, m)
    ensures Agree(done, r, if m.None? then None else Some(Chain([stage] + m.value.stages, m.value.background)))
  {
    if m.Some? {
      assert done + [stage] + m.value.stages == done + ([stage] + m.value.stages);
    }
  }

  lemma {:induction false} BuildIsMeaning(done: seq<Stage>, ts: seq<Token>, status: Int32)
    requires forall k :: 0 <= k < |done| ==> done[k].args != []
    ensures Agree(done, BuildFrom(done + [NEW_STAGE], ts, status), Meaning(ts, status))
    decreases |ts|
  {
    hide Fits, With, BuildFrom, Items, StageLength, Meaning;
    var n := StageLength(ts);
    var items, rest := Items(ts[..n]), ts[n..];
    var stage := With(NEW_STAGE, items, status);
    assert ts == ts[..n] + rest;
    MeaningUnfolds(ts, status);
    StageBuilds(done, NEW_STAGE, ts[..n], rest, status);
    if Fits(NEW_STAGE, items) {
      StageEnding(done, stage, rest, status);
      if stage.args != [] && |rest| > 1 && rest[0].Pipe? && rest[1].Word? {
        var tail := ts[n + 1..];
        assert rest[1..] == tail;
        BuildIsMeaning(done + [stage], tail, status);
        AgreeCons(done, stage, BuildFrom(done + [stage] + [NEW_STAGE], tail, status), Meaning(tail, status));
      }
    }
  }

  /** `build_command` gives a command exactly for the tokens that mean one, and then that command. */
  lemma BuildsExactly(ts: seq<Token>, status: Int32, c: Chain)
    ensures Build(ts, status) == Command(c) <==> Meaning(ts, status) == Some(c)
  {
    hide BuildFrom, Meaning;
    assert [] + [NEW_STAGE] == [NEW_STAGE];
    BuildIsMeaning([], ts, status);
    var m := Meaning(ts, status);
    if m.Some? {
      assert [] + m.value.stages == m.value.stages;
    }
  }

  /** What a line says, all told: `parse_line` gives this command exactly if the tokens that stand in
      the line, at most 128 of less than 256 characters each, mean it. */
  lemma ParsesExactly(line: string, status: Int32, c: Chain)
    ensures Parse(line, status) == Parsed.Parsed(c) <==>
      exists ts, at :: ParserTokens.Tokens(line, ts, at) && WithinReach(ts) && Meaning(ts, status) == Some(c)
  {
    hide ParserTokens.Tokens, Meaning, Build, Scan, Limited;
    var ts := Scan(line);
    var at := ParserTokens.ScanFindsTokens(line);
    ParserTokens.LimitsExactly(ts);
    BuildsExactly(ts, status, c);
    NothingMeansNothing(status);
    if ts', at' :| ParserTokens.Tokens(line, ts', at') && WithinReach(ts') && Meaning(ts', status) == Some(c) {
      ParserTokens.TokensAreScan(line, ts', at');
    }
  }

  predicate WithinReach(ts: seq<Token>) {
    |ts| <= 128 && forall i :: 0 <= i < |ts| && ts[i].Word? ==> |ts[i].text| < 256
  }

  lemma NothingMeansNothing(status: Int32)
    ensures Meaning([], status) == None
  {
  }

  // ---------------------------------------------------------------- $?

  function IntOf(s: string): int
    requires s != "" && AllDigits(if s[0] == '-' then s[1..] else s)
  {
    if s[0] == '-' then -(Value(s[1..]) as int) else Value(s)
  }

  /** What "$?" becomes reads back as the last status, without a leading zero; any other word stays. */
  lemma StatusExpands(text: string, status: Int32)
    ensures var w := Expanded(text, status);
      if text == "$?" then
        && w != "" && AllDigits(if w[0] == '-' then w[1..] else w) && IntOf(w) == status as int
        && (status != 0 ==> w[0] != '0')
      else w == text
  {
    if text == "$?" {
      var m := if status < 0 then -(status as int) else status as int;
      ValueOfDecimal(m);
      DecimalLeads(m);
      var w := Signed(status);
      if status < 0 {
        assert w[1..] == Decimal(m);
      } else {
        assert IsDigit(w[0]);
      }
    }
  }
}

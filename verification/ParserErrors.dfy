/** Which error a refused command is refused with. */
module ParserErrors {
  import opened Options
  import opened Parser
  import opened ParserMeaning

  predicate Redirects(t: Token) {
    t.RedirectIn? || t.RedirectOut? || t.RedirectAppend?
  }

  /** With these tokens left and the stage as far as it is, this is what is wrong. */
  predicate Deserves(e: SyntaxError, at: Stage, ts: seq<Token>) {
    match e
    case TooManyArguments => ts != [] && ts[0].Word? && |at.args| == 63
    case ExpectedFilename => ts != [] && Redirects(ts[0]) && (|ts| > 1 ==> !ts[1].Word?)
    case DuplicateInput => |ts| > 1 && ts[0].RedirectIn? && ts[1].Word? && at.input.Some?
    case DuplicateOutput =>
      |ts| > 1 && (ts[0].RedirectOut? || ts[0].RedirectAppend?) && ts[1].Word? && at.output.Some?
    case AmpersandNotLast => |ts| > 1 && ts[0].Background?
    case MissingCommand => at.args == [] && (ts == [] || ts[0].Pipe? || ts == [Background])
    case ExpectedCommand => at.args != [] && ts != [] && ts[0].Pipe? && (|ts| > 1 ==> !ts[1].Word?)
  }

  /** The tokens from p on are those of one stage, fit it as far as n, and are wrong there; what comes
      before p is nothing, or a command and a '|'. */
  ghost predicate WrongAt(e: SyntaxError, ts: seq<Token>, p: nat, n: nat, status: Int32) {
    && p <= n <= |ts|
    && (p > 0 ==>
          ts[p - 1].Pipe? && Meaning(ts[..p - 1], status).Some? && !Meaning(ts[..p - 1], status).value.background)
    && Fits(NEW_STAGE, Items(ts[p..n]))
    && Deserves(e, With(NEW_STAGE, Items(ts[p..n]), status), ts[n..])
  }

  lemma TurnRefuses(done: seq<Stage>, s: Stage, ts: seq<Token>, status: Int32, e: SyntaxError)
    requires |s.args| <= 63 && (forall k :: 0 <= k < |done| ==> done[k].args != [])
    requires ts != [] && Step(done + [s], ts, status) == Stop(Refused(e))
    ensures Deserves(e, s, ts)
  {
    assert Last(done + [s]) == s;
    assert forall k :: 0 <= k < |done| ==> (done + [s])[k] == done[k];
    assert |ts| == 1 && ts[0].Background? ==> ts == [Background];
  }

  // ---------------------------------------------------------------- within a stage

  lemma WordFits(s: Stage, ts: seq<Token>, n: nat, status: Int32)
    requires 0 < n <= |ts| && ts[0].Word? && |s.args| < 63
    requires Fits(Taking(s, Arg(ts[0].text), status), Items(ts[1..][..n - 1]))
    ensures Fits(s, Items(ts[..n]))
    ensures With(s, Items(ts[..n]), status) ==
      With(Taking(s, Arg(ts[0].text), status), Items(ts[1..][..n - 1]), status)
  {
    hide With, Items;
    var item, items := Arg(ts[0].text), Items(ts[1..][..n - 1]);
    assert ts[..n] == [ts[0]] + ts[1..][..n - 1];
    ItemsOfWord(ts[0].text, ts[1..][..n - 1]);
    FitsArg(s, Taking(s, item, status), item, items);
    hide Fits;
    WithCons(s, item, items, status);
  }

  lemma RedirectFits(s: Stage, ts: seq<Token>, n: nat, status: Int32)
    requires 1 < n <= |ts| && Redirects(ts[0]) && ts[1].Word?
    requires var item := RedirectItem(ts[0], ts[1].text);
      Free(s, item) && Fits(Taking(s, item, status), Items(ts[2..][..n - 2]))
    ensures Fits(s, Items(ts[..n]))
    ensures With(s, Items(ts[..n]), status) ==
      With(Taking(s, RedirectItem(ts[0], ts[1].text), status), Items(ts[2..][..n - 2]), status)
  {
    hide With, Items;
    var item, items := RedirectItem(ts[0], ts[1].text), Items(ts[2..][..n - 2]);
    assert ts[..n] == [ts[0], ts[1]] + ts[2..][..n - 2];
    ItemsOfRedirect(ts[0], ts[1].text, ts[2..][..n - 2]);
    FitsCons(s, item, items);
    hide Fits;
    WithCons(s, item, items, status);
  }

  /** The tokens up to n fit the stage. */
  predicate FitsUpTo(s: Stage, ts: seq<Token>, n: nat) {
    n <= |ts| && (forall i :: 0 <= i < n ==> !EndsStage(ts[i])) && Fits(s, Items(ts[..n]))
  }

  lemma NothingFits(s: Stage, ts: seq<Token>, status: Int32)
    requires |s.args| <= 63
    ensures FitsUpTo(s, ts, 0) && With(s, Items(ts[..0]), status) == s && ts[0..] == ts
  {
    StageEnds(s, status);
    assert ts[..0] == [];
  }

  /** One turn within a stage. */
  lemma TurnWithin(done: seq<Stage>, s: Stage, ts: seq<Token>, status: Int32) returns (next: Stage)
    requires |s.args| <= 63 && ts != [] && !ts[0].Pipe? && Step(done + [s], ts, status).Next?
    ensures var used := Step(done + [s], ts, status).used;
      && Step(done + [s], ts, status).stages == done + [next] && |next.args| <= 63
      && forall n :: n >= used && FitsUpTo(next, ts[used..], n - used) ==>
           FitsUpTo(s, ts, n) && With(s, Items(ts[..n]), status) == With(next, Items(ts[used..][..n - used]), status)
  {
    hide Items, With, Fits, Expanded;
    var used := Step(done + [s], ts, status).used;
    var item := if ts[0].Word? then Arg(ts[0].text) else RedirectItem(ts[0], ts[1].text);
    next := Taking(s, item, status);
    assert SetLast(done + [s], next) == done + [next];
    forall n | n >= used && FitsUpTo(next, ts[used..], n - used)
      ensures FitsUpTo(s, ts, n) && With(s, Items(ts[..n]), status) == With(next, Items(ts[used..][..n - used]), status)
    {
      if ts[0].Word? {
        WordFits(s, ts, n, status);
      } else {
        RedirectFits(s, ts, n, status);
      }
      assert forall i :: used <= i < n ==> ts[i] == ts[used..][i - used];
    }
  }

  /** A build that refuses either finds something wrong in this stage, or goes on to the next. */
  lemma {:induction false} StageRefuses(done: seq<Stage>, s: Stage, ts: seq<Token>, status: Int32, e: SyntaxError)
    returns (n: nat, last: bool)
    requires |s.args| <= 63 && (forall k :: 0 <= k < |done| ==> done[k].args != [])
    requires BuildFrom(done + [s], ts, status) == Refused(e)
    ensures n <= |ts| && FitsUpTo(s, ts, n)
    ensures var at := With(s, Items(ts[..n]), status);
      if last then Deserves(e, at, ts[n..])
      else
        && n + 1 < |ts| && ts[n].Pipe? && ts[n + 1].Word? && at.args != []
        && BuildFrom(done + [at] + [NEW_STAGE], ts[n + 1..], status) == Refused(e)
    decreases |ts|
  {
    hide Items, With, Deserves, FitsUpTo, Step;
    if ts == [] {
      NothingFits(s, ts, status);
      EndRefuses(done, s, e);
      return 0, true;
    }
    var turn := Step(done + [s], ts, status);
    if turn.Stop? {
      NothingFits(s, ts, status);
      TurnRefuses(done, s, ts, status, e);
      return 0, true;
    }
    if ts[0].Pipe? {
      NothingFits(s, ts, status);
      PipeGoesOn(done, s, ts, status);
      return 0, false;
    }
    var next := TurnWithin(done, s, ts, status);
    var rest;
    rest, last := StageRefuses(done, next, ts[turn.used..], status, e);
    n := rest + turn.used;
    assert ts[turn.used..][rest..] == ts[n..];
    assert !last ==> ts[turn.used..][rest + 1..] == ts[n + 1..];
  }

  lemma EndRefuses(done: seq<Stage>, s: Stage, e: SyntaxError)
    requires forall k :: 0 <= k < |done| ==> done[k].args != []
    requires Complete(done + [s], false) == Refused(e)
    ensures Deserves(e, s, [])
  {
    assert forall k :: 0 <= k < |done| ==> (done + [s])[k] == done[k];
  }

  lemma PipeGoesOn(done: seq<Stage>, s: Stage, ts: seq<Token>, status: Int32)
    requires ts != [] && ts[0].Pipe? && Step(done + [s], ts, status).Next?
    ensures |ts| > 1 && ts[1].Word? && s.args != []
    ensures Step(done + [s], ts, status) == Next(done + [s] + [NEW_STAGE], 1)
  {
    assert Last(done + [s]) == s;
  }

  // ---------------------------------------------------------------- over the stages

  /** Tokens without '|' or '&' are all of one stage. */
  lemma OneStage(b: seq<Token>, rest: seq<Token>)
    requires (forall i :: 0 <= i < |b| ==> !EndsStage(b[i])) && (rest != [] ==> EndsStage(rest[0]))
    ensures StageLength(b + rest) == |b|
  {
    hide StageLength;
    var ts := b + rest;
    var n := StageLength(ts);
    assert forall i :: 0 <= i < |b| ==> ts[i] == b[i];
    assert rest != [] ==> ts[|b|] == rest[0];
  }

  lemma MeaningOfStage(b: seq<Token>, status: Int32)
    requires FitsUpTo(NEW_STAGE, b, |b|) && With(NEW_STAGE, Items(b), status).args != []
    ensures Meaning(b, status) == Some(Chain([With(NEW_STAGE, Items(b), status)], false))
  {
    hide Items, With, Fits, Meaning;
    OneStage(b, []);
    assert b + [] == b && b[..|b|] == b;
    MeaningUnfolds(b, status);
  }

  lemma Regroup(first: Stage, more: seq<Stage>, last: Stage)
    ensures [first] + (more + [last]) == [first] + more + [last]
  {
  }

  lemma Joined(a: seq<Token>, b: seq<Token>, n: nat)
    requires n <= |a|
    ensures var all := a + [Pipe] + b;
      && all[..n] == a[..n] && a[..n] + all[n..] == all
      && all[n] == (if n < |a| then a[n] else Pipe)
      && (n == |a| ==> all[n + 1..] == b && (b != [] ==> all[n + 1] == b[0]))
      && (n < |a| ==> all[n + 1..] == a[n + 1..] + [Pipe] + b)
      && (n + 1 < |a| ==> all[n + 1] == a[n + 1])
  {
  }

  /** A command, a '|' and one more stage mean the command with that stage at its end. */
  lemma {:induction false} MeaningAppends(a: seq<Token>, b: seq<Token>, status: Int32)
    requires Meaning(a, status).Some? && !Meaning(a, status).value.background
    requires b != [] && b[0].Word? && FitsUpTo(NEW_STAGE, b, |b|) && With(NEW_STAGE, Items(b), status).args != []
    ensures Meaning(a + [Pipe] + b, status) ==
      Some(Chain(Meaning(a, status).value.stages + [With(NEW_STAGE, Items(b), status)], false))
    decreases |a|
  {
    hide Items, With, Fits, FitsUpTo, Meaning;
    var n := StageLength(a);
    var all := a + [Pipe] + b;
    MeaningUnfolds(a, status);
    MeaningUnfolds(all, status);
    Joined(a, b, n);
    OneStage(a[..n], all[n..]);
    if n == |a| {
      MeaningOfStage(b, status);
    } else {
      MeaningAppends(a[n + 1..], b, status);
      Regroup(With(NEW_STAGE, Items(a[..n]), status), Meaning(a[n + 1..], status).value.stages,
              With(NEW_STAGE, Items(b), status));
    }
  }

  /** The tokens before p are nothing, or a command of these stages and a '|' with a word after it. */
  ghost predicate Upto(ts: seq<Token>, p: nat, done: seq<Stage>, status: Int32) {
    && p <= |ts|
    && (p == 0 ==> done == [])
    && (p > 0 ==>
          p < |ts| && ts[p - 1].Pipe? && ts[p].Word? && Meaning(ts[..p - 1], status) == Some(Chain(done, false)))
  }

  lemma UptoNext(ts: seq<Token>, p: nat, n: nat, done: seq<Stage>, status: Int32)
    requires Upto(ts, p, done, status) && n + 1 < |ts[p..]| && ts[p..][n].Pipe? && ts[p..][n + 1].Word?
    requires FitsUpTo(NEW_STAGE, ts[p..], n) && With(NEW_STAGE, Items(ts[p..][..n]), status).args != []
    ensures Upto(ts, p + n + 1, done + [With(NEW_STAGE, Items(ts[p..][..n]), status)], status)
  {
    hide Items, With, Fits, Meaning;
    var b := ts[p..][..n];
    assert b[..|b|] == b;
    if p == 0 {
      assert ts[..n] == b;
      MeaningOfStage(b, status);
      assert done + [With(NEW_STAGE, Items(b), status)] == [With(NEW_STAGE, Items(b), status)];
    } else {
      assert n > 0 && b[0] == ts[p];
      MeaningAppends(ts[..p - 1], b, status);
      assert ts[..p + n] == ts[..p - 1] + [Pipe] + b;
    }
  }

  lemma {:induction false} RefusesAfter(ts: seq<Token>, p: nat, done: seq<Stage>, status: Int32, e: SyntaxError)
    returns (q: nat, n: nat)
    requires Upto(ts, p, done, status) && forall k :: 0 <= k < |done| ==> done[k].args != []
    requires BuildFrom(done + [NEW_STAGE], ts[p..], status) == Refused(e)
    ensures WrongAt(e, ts, q, n, status)
    decreases |ts| - p
  {
    hide Items, With, Fits, Meaning, BuildFrom, Deserves;
    var more, last := StageRefuses(done, NEW_STAGE, ts[p..], status, e);
    var stage := With(NEW_STAGE, Items(ts[p..][..more]), status);
    if last {
      q, n := p, p + more;
      assert ts[p..n] == ts[p..][..more] && ts[n..] == ts[p..][more..];
    } else {
      UptoNext(ts, p, more, done, status);
      assert ts[p..][more + 1..] == ts[p + more + 1..];
      q, n := RefusesAfter(ts, p + more + 1, done + [stage], status, e);
    }
  }

  /** The error of tokens that are no command is that of the first place that is wrong: the stages
      before are a command, the tokens before fit their stage, and this one does not for that reason. */
  lemma RefusedBecause(ts: seq<Token>, status: Int32, e: SyntaxError)
    requires Build(ts, status) == Refused(e)
    ensures exists p, n :: WrongAt(e, ts, p, n, status)
  {
    assert [] + [NEW_STAGE] == [NEW_STAGE] && ts[0..] == ts;
    var p, n := RefusesAfter(ts, 0, [], status, e);
  }
}

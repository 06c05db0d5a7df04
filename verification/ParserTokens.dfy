/** What the tokens of a line are, without saying how they are found. */
module ParserTokens {
  import opened CType
  import opened Parser
  import opened ParserRoundTrip

  function Length(t: Token): nat {
    |TokenText(t)|
  }

  /** Token t stands at position p: the line has its text there, a word has no space and no special
      character and goes as far as it can, and ">" is not the start of ">>". */
  predicate Placed(line: string, t: Token, p: nat) {
    && Length(t) > 0 && p + Length(t) <= |line| && line[p..p + Length(t)] == TokenText(t)
    && match t
       case Word(text) =>
         && (forall i :: 0 <= i < |text| ==> WordChar(text[i]))
         && (p + |text| < |line| ==> !WordChar(line[p + |text|]))
       case RedirectOut => p + 1 < |line| ==> line[p + 1] != '>'
       case _ => true
  }

  /** The tokens stand at these positions, one after the other. */
  predicate InOrder(ts: seq<Token>, at: seq<nat>) {
    |at| == |ts| && forall i :: 0 < i < |ts| ==> at[i - 1] + Length(ts[i - 1]) <= at[i]
  }

  /** Position p belongs to one of the tokens. */
  predicate Taken(ts: seq<Token>, at: seq<nat>, p: nat)
    requires |at| == |ts|
  {
    exists i :: 0 <= i < |ts| && at[i] <= p < at[i] + Length(ts[i])
  }

  /** These are the tokens of the line: each stands where it stands, in order, and nothing but space
      is left over. */
  predicate Tokens(line: string, ts: seq<Token>, at: seq<nat>) {
    && InOrder(ts, at)
    && (forall i :: 0 <= i < |ts| ==> Placed(line, ts[i], at[i]))
    && (forall p :: 0 <= p < |line| && !IsSpace(line[p]) ==> Taken(ts, at, p))
  }

  // ---------------------------------------------------------------- moving along the line

  function Shifted(at: seq<nat>, k: nat): (r: seq<nat>)
    ensures |r| == |at| && forall i :: 0 <= i < |at| ==> r[i] == at[i] + k
  {
    seq(|at|, i requires 0 <= i < |at| => at[i] + k)
  }

  function Unshifted(at: seq<nat>, k: nat): (r: seq<nat>)
    requires forall i :: 0 <= i < |at| ==> at[i] >= k
    ensures |r| == |at| && forall i :: 0 <= i < |at| ==> r[i] == at[i] - k
  {
    seq(|at|, i requires 0 <= i < |at| => at[i] - k)
  }

  lemma PlacedShift(line: string, k: nat, t: Token, p: nat)
    requires k <= |line|
    ensures Placed(line[k..], t, p) <==> Placed(line, t, p + k)
  {
    if p + Length(t) <= |line[k..]| {
      assert line[k..][p..p + Length(t)] == line[p + k..p + k + Length(t)];
    }
  }

  lemma TakenShift(ts: seq<Token>, at: seq<nat>, k: nat, p: nat)
    requires |at| == |ts|
    ensures Taken(ts, at, p) <==> Taken(ts, Shifted(at, k), p + k)
  {
    hide Shifted;
    var later := Shifted(at, k);
    if i :| 0 <= i < |ts| && at[i] <= p < at[i] + Length(ts[i]) {
      assert later[i] <= p + k < later[i] + Length(ts[i]);
    }
  }

  /** The tokens of the rest of a line are tokens of the line, further along. */
  lemma TokensShift(line: string, k: nat, ts: seq<Token>, at: seq<nat>)
    requires k <= |line| && |at| == |ts|
    ensures Tokens(line[k..], ts, at) <==>
      && InOrder(ts, Shifted(at, k))
      && (forall i :: 0 <= i < |ts| ==> Placed(line, ts[i], Shifted(at, k)[i]))
      && (forall p :: k <= p < |line| && !IsSpace(line[p]) ==> Taken(ts, Shifted(at, k), p))
  {
    hide Placed, Taken, Length, Shifted;
    var later := Shifted(at, k);
    forall i | 0 <= i < |ts| ensures Placed(line[k..], ts[i], at[i]) <==> Placed(line, ts[i], later[i]) {
      PlacedShift(line, k, ts[i], at[i]);
    }
    forall p | 0 <= p < |line| - k ensures Taken(ts, at, p) <==> Taken(ts, later, p + k) {
      TakenShift(ts, at, k, p);
    }
    if forall p :: 0 <= p < |line[k..]| && !IsSpace(line[k..][p]) ==> Taken(ts, at, p) {
      forall p | k <= p < |line| && !IsSpace(line[p]) ensures Taken(ts, later, p) {
        assert line[k..][p - k] == line[p];
        assert Taken(ts, at, p - k);
        TakenShift(ts, at, k, p - k);
      }
    }
    assert InOrder(ts, at) <==> InOrder(ts, later);
  }

  // ---------------------------------------------------------------- Scan finds them

  /** The first token found stands at the front. */
  lemma FrontPlaced(line: string)
    requires line != [] && !IsSpace(line[0])
    ensures Placed(line, Front(line).0, 0) && Length(Front(line).0) == Front(line).1
  {
    var t := Front(line).0;
    if t.Word? {
      assert line[0..Length(t)] == t.text;
    }
  }

  /** And it is the only one that can. */
  lemma FrontOnly(line: string, t: Token)
    requires line != [] && Placed(line, t, 0)
    ensures !IsSpace(line[0]) && Front(line) == (t, Length(t))
  {
    var text := TokenText(t);
    assert line[0..|text|] == text;
    assert line[0] == text[0];
    match t
    case Word(w) => WordOnly(line, w);
    case RedirectAppend => assert line[1] == text[1];
    case _ =>
  }

  lemma WordOnly(line: string, w: string)
    requires w != "" && |w| <= |line| && line[..|w|] == w && forall i :: 0 <= i < |w| ==> WordChar(w[i])
    requires |w| < |line| ==> !WordChar(line[|w|])
    ensures WordLength(line) == |w|
  {
    assert forall i :: 0 <= i < |w| ==> line[i] == w[i];
  }

  lemma {:induction false} ScanFindsTokens(line: string) returns (at: seq<nat>)
    ensures |at| == |Scan(line)| && Tokens(line, Scan(line), at)
    decreases |line|
  {
    hide Front, Placed, Taken, InOrder;
    if line == [] {
      at := [];
      NoTokens();
    } else if IsSpace(line[0]) {
      var rest := ScanFindsTokens(line[1..]);
      at := Shifted(rest, 1);
      TokensShift(line, 1, Scan(line[1..]), rest);
      ScanOfSpace(line);
    } else {
      var t, n := Front(line).0, Front(line).1;
      var rest := ScanFindsTokens(line[n..]);
      at := [0] + Shifted(rest, n);
      FrontPlaced(line);
      OneMoreToken(line, t, n, Scan(line[n..]), rest);
      ScanOfToken(line);
    }
  }

  lemma NoTokens()
    ensures Tokens([], [], []) && Scan([]) == []
  {
  }

  lemma ScanOfSpace(line: string)
    requires line != [] && IsSpace(line[0])
    ensures Scan(line) == Scan(line[1..])
  {
  }

  lemma ScanOfToken(line: string)
    requires line != [] && !IsSpace(line[0])
    ensures Scan(line) == [Front(line).0] + Scan(line[Front(line).1..])
  {
  }

  lemma OneMoreToken(line: string, t: Token, n: nat, ts: seq<Token>, at: seq<nat>)
    requires n <= |line| && Placed(line, t, 0) && Length(t) == n && Tokens(line[n..], ts, at)
    ensures Tokens(line, [t] + ts, [0] + Shifted(at, n))
  {
    hide Placed, Shifted, Length;
    TokensShift(line, n, ts, at);
    var later := Shifted(at, n);
    var all, ps := [t] + ts, [0] + later;
    forall i | 0 < i < |all| ensures ps[i - 1] + Length(all[i - 1]) <= ps[i] {
      assert ps[i] == later[i - 1] == at[i - 1] + n;
      if i > 1 {
        assert later[i - 2] + Length(ts[i - 2]) <= later[i - 1];
      }
    }
    forall p | 0 <= p < |line| && !IsSpace(line[p]) ensures Taken(all, ps, p) {
      if p < n {
        assert ps[0] <= p < ps[0] + Length(all[0]);
      } else {
        assert Taken(ts, later, p);
        var i :| 0 <= i < |ts| && later[i] <= p < later[i] + Length(ts[i]);
        assert ps[i + 1] == later[i] && all[i + 1] == ts[i];
      }
    }
  }

  /** The tokens of a line are determined by the line: whatever else satisfies `Tokens` is what Scan
      finds. */
  lemma {:induction false} TokensAreScan(line: string, ts: seq<Token>, at: seq<nat>)
    requires Tokens(line, ts, at)
    ensures ts == Scan(line)
    decreases |line|
  {
    hide Front;
    if line == [] {
      if ts != [] {
        TokensNeedText(line, ts, at);
      }
    } else if IsSpace(line[0]) {
      NotAtSpace(line, ts, at);
      var rest := Unshifted(at, 1);
      assert Shifted(rest, 1) == at;
      hide Placed, Taken, InOrder;
      TokensShift(line, 1, ts, rest);
      TokensAreScan(line[1..], ts, rest);
      ScanOfSpace(line);
    } else {
      FirstAtZero(line, ts, at);
      FrontOnly(line, ts[0]);
      hide Placed, Length;
      var n := Front(line).1;
      var rest := DropFirst(line, ts, at);
      TokensAreScan(line[n..], ts[1..], rest);
      ScanOfToken(line);
    }
  }

  lemma TokensNeedText(line: string, ts: seq<Token>, at: seq<nat>)
    requires Tokens(line, ts, at) && ts != []
    ensures line != []
  {
    hide Front;
    assert Placed(line, ts[0], at[0]);
  }

  lemma NotAtSpace(line: string, ts: seq<Token>, at: seq<nat>)
    requires Tokens(line, ts, at) && line != [] && IsSpace(line[0])
    ensures forall i :: 0 <= i < |at| ==> at[i] >= 1
  {
    hide Front;
    forall i | 0 <= i < |at| ensures at[i] >= 1 {
      assert Placed(line, ts[i], at[i]);
      if at[i] == 0 {
        FrontOnly(line, ts[i]);
        assert false;
      }
    }
  }

  lemma FirstAtZero(line: string, ts: seq<Token>, at: seq<nat>)
    requires Tokens(line, ts, at) && line != [] && !IsSpace(line[0])
    ensures ts != [] && at[0] == 0 && Placed(line, ts[0], 0)
  {
    hide Placed;
    assert Taken(ts, at, 0);
    var i :| 0 <= i < |ts| && at[i] <= 0 < at[i] + Length(ts[i]);
    if i > 0 {
      LaterIsPositive(line, ts, at, i);
    }
  }

  lemma LaterIsPositive(line: string, ts: seq<Token>, at: seq<nat>, i: nat)
    requires Tokens(line, ts, at) && 0 < i < |at|
    ensures at[i] > 0
  {
    hide Placed, Taken;
    assert Placed(line, ts[i - 1], at[i - 1]);
    PlacedIsSome(line, ts[i - 1], at[i - 1]);
    assert at[i - 1] + Length(ts[i - 1]) <= at[i];
  }

  lemma PlacedIsSome(line: string, t: Token, p: nat)
    requires Placed(line, t, p)
    ensures Length(t) > 0 && p + Length(t) <= |line|
  {
  }

  lemma DropFirst(line: string, ts: seq<Token>, at: seq<nat>) returns (rest: seq<nat>)
    requires Tokens(line, ts, at) && ts != [] && at[0] == 0
    ensures Length(ts[0]) <= |line| && Tokens(line[Length(ts[0])..], ts[1..], rest)
  {
    hide Placed, Length;
    var n := Length(ts[0]);
    PlacedIsSome(line, ts[0], at[0]);
    AllAfter(line, ts, at);
    assert forall i :: 0 <= i < |at[1..]| ==> at[1..][i] == at[i + 1] >= n;
    rest := Unshifted(at[1..], n);
    hide Unshifted, Shifted;
    assert Shifted(rest, n) == at[1..];
    forall i | 0 < i < |ts[1..]| ensures at[1..][i - 1] + Length(ts[1..][i - 1]) <= at[1..][i] {
      assert at[i] + Length(ts[i]) <= at[i + 1];
    }
    forall p | n <= p < |line| && !IsSpace(line[p]) ensures Taken(ts[1..], at[1..], p) {
      assert Taken(ts, at, p);
      var i :| 0 <= i < |ts| && at[i] <= p < at[i] + Length(ts[i]);
      assert i > 0 && ts[1..][i - 1] == ts[i] && at[1..][i - 1] == at[i];
    }
    TokensShift(line, n, ts[1..], rest);
  }

  lemma AllAfter(line: string, ts: seq<Token>, at: seq<nat>)
    requires Tokens(line, ts, at) && ts != [] && at[0] == 0
    ensures forall i :: 0 < i < |at| ==> at[i] >= Length(ts[0])
  {
    hide Placed, Length, Taken;
    forall i | 0 < i < |at| ensures at[i] >= Length(ts[0]) {
      After(ts, at, i);
    }
  }

  lemma {:induction false} After(ts: seq<Token>, at: seq<nat>, i: nat)
    requires InOrder(ts, at) && 0 < i < |at| && at[0] == 0
    ensures at[i] >= Length(ts[0])
    decreases i
  {
    if i > 1 {
      After(ts, at, i - 1);
      assert at[i - 1] + Length(ts[i - 1]) <= at[i];
    }
  }

  /** What a line says: Scan gives the one sequence of tokens that stands in it. */
  lemma ScanIsTheTokens(line: string, ts: seq<Token>)
    ensures ts == Scan(line) <==> exists at :: Tokens(line, ts, at)
  {
    hide Tokens, Scan;
    var at := ScanFindsTokens(line);
    if at' :| Tokens(line, ts, at') {
      TokensAreScan(line, ts, at');
    }
  }

  /** The limits, spelled out: 128 tokens of less than 256 characters each. */
  lemma LimitsExactly(ts: seq<Token>)
    ensures Limited(ts).Tokens? <==> |ts| <= 128 && forall i :: 0 <= i < |ts| && ts[i].Word? ==> |ts[i].text| < 256
    ensures Limited(ts).Tokens? ==> Limited(ts).tokens == ts
    ensures Limited(ts).TooLong? <==> exists i :: 0 <= i < |ts| && i < 128 && ts[i].Word? && |ts[i].text| >= 256
  {
  }
}

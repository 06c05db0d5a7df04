/** The order of the key lines of a section does not matter. */
module DeviceConfigOrder {
  import opened Options
  import opened Errno
  import opened DeviceConfig

  /** A line that does not open a section: a key, a comment, a blank line or anything malformed. */
  predicate NoHeader(raw: string) {
    var text := Trim(raw);
    text == "" || text[0] != '['
  }

  /** The effect of such a line on an open section; a blank line or a comment has none. */
  function KeyEffect(s: Section, raw: string): Option<Section> {
    if |raw| >= LINE_SIZE || '\0' in raw then None
    else
      var text := Trim(raw);
      var i := IndexOf(text, '=');
      if Ignored(text) then Some(s)
      else if i == |text| then None
      else Field(s, Trim(text[..i]), Trim(text[i + 1..]))
  }

  function KeyEffects(s: Section, lines: seq<string>): Option<Section>
    decreases |lines|
  {
    if lines == [] then Some(s)
    else
      match KeyEffect(s, lines[0])
      case None => None
      case Some(s') => KeyEffects(s', lines[1..])
  }

  /** Two keys are assigned independently of each other. */
  lemma AssignedCommutes(c: Config, k: Key, v: string, l: Key, w: string)
    requires k != l
    ensures Assigned(c, k, v).Some? && Assigned(c, l, w).Some? ==>
      && Assigned(Assigned(c, k, v).value, l, w).Some?
      && Assigned(Assigned(c, k, v).value, l, w) == Assigned(Assigned(c, l, w).value, k, v)
  {
    hide Unsigned, KindOf, BiasOf, Copied;
  }

  /** Whether a value does for a key does not depend on the section. */
  lemma AssignedDependsOnValue(c: Config, d: Config, k: Key, v: string)
    ensures Assigned(c, k, v).Some? <==> Assigned(d, k, v).Some?
  {
    hide Unsigned, KindOf, BiasOf, Copied;
  }

  function Then(a: Option<Section>, key: string, value: string): Option<Section> {
    match a case None => None case Some(s) => Field(s, key, value)
  }

  lemma FieldCommutes(s: Section, k: string, v: string, l: string, w: string)
    ensures Then(Field(s, k, v), l, w) == Then(Field(s, l, w), k, v)
  {
    hide Assigned, KeyOf;
    if KeyOf(k).Some? && KeyOf(l).Some? && KeyOf(k) != KeyOf(l) {
      var a, b := KeyOf(k).value, KeyOf(l).value;
      AssignedCommutes(s.config, a, v, b, w);
      if Assigned(s.config, a, v).Some? {
        AssignedDependsOnValue(s.config, Assigned(s.config, a, v).value, b, w);
      }
      if Assigned(s.config, b, w).Some? {
        AssignedDependsOnValue(s.config, Assigned(s.config, b, w).value, a, v);
      }
      assert s.fields + {a} + {b} == s.fields + {b} + {a};
    }
  }

  lemma EffectsCommute(s: Section, a: string, b: string, rest: seq<string>)
    ensures KeyEffects(s, [a, b] + rest) == KeyEffects(s, [b, a] + rest)
  {
    hide Field, Trim, IndexOf;
    assert ([a, b] + rest)[1..] == [b] + rest && ([b] + rest)[1..] == rest;
    assert ([b, a] + rest)[1..] == [a] + rest && ([a] + rest)[1..] == rest;
    var x, y := Trim(a), Trim(b);
    var i, j := IndexOf(x, '='), IndexOf(y, '=');
    if i < |x| && j < |y| {
      FieldCommutes(s, Trim(x[..i]), Trim(x[i + 1..]), Trim(y[..j]), Trim(y[j + 1..]));
    }
  }

  lemma EffectsAppend(s: Section, a: seq<string>, b: seq<string>)
    ensures KeyEffects(s, a + b) == match KeyEffects(s, a) case None => None case Some(t) => KeyEffects(t, b)
    decreases |a|
  {
    hide KeyEffect;
    if a == [] {
      assert a + b == b;
    } else {
      assert (a + b)[1..] == a[1..] + b;
      match KeyEffect(s, a[0])
      case None =>
      case Some(t) => EffectsAppend(t, a[1..], b);
    }
  }

  /** Any line may be moved to the front. */
  lemma {:induction false} MoveToFront(s: Section, lines: seq<string>, i: nat)
    requires i < |lines|
    ensures KeyEffects(s, lines) == KeyEffects(s, [lines[i]] + lines[..i] + lines[i + 1..])
    decreases i
  {
    hide KeyEffects;
    if i == 0 {
      assert [lines[0]] + lines[..0] + lines[1..] == lines;
    } else {
      // bring it one place forward, then let the induction do the rest
      var front, a, b, rest := lines[..i - 1], lines[i - 1], lines[i], lines[i + 1..];
      var swapped := front + [b, a] + rest;
      assert lines == front + ([a, b] + rest);
      assert swapped == front + ([b, a] + rest);
      EffectsAppend(s, front, [a, b] + rest);
      EffectsAppend(s, front, [b, a] + rest);
      match KeyEffects(s, front) {
        case None =>
        case Some(t) => EffectsCommute(t, a, b, rest);
      }
      MoveToFront(s, swapped, i - 1);
      assert [swapped[i - 1]] + swapped[..i - 1] + swapped[i..] == [lines[i]] + lines[..i] + lines[i + 1..];
    }
  }

  lemma Without(a: seq<string>, b: seq<string>) returns (i: nat)
    requires a != [] && multiset(a) == multiset(b)
    ensures i < |b| && b[i] == a[0] && multiset(b[..i] + b[i + 1..]) == multiset(a[1..])
  {
    assert a[0] in multiset(b);
    i :| 0 <= i < |b| && b[i] == a[0];
    var rest, tail := b[..i] + b[i + 1..], a[1..];
    assert multiset(b) == multiset(rest) + multiset{a[0]} by {
      assert b == b[..i] + [b[i]] + b[i + 1..];
    }
    assert multiset(a) == multiset(tail) + multiset{a[0]} by {
      assert a == [a[0]] + tail;
    }
    assert multiset(rest) == multiset(b) - multiset{a[0]};
    assert multiset(tail) == multiset(a) - multiset{a[0]};
  }

  lemma EffectsOfFirst(s: Section, line: string, rest: seq<string>)
    ensures KeyEffects(s, [line] + rest) ==
      match KeyEffect(s, line) case None => None case Some(t) => KeyEffects(t, rest)
  {
    hide KeyEffect;
    assert ([line] + rest)[1..] == rest;
  }

  /** The outcome of a section depends only on which key lines it has. */
  lemma {:induction false} EffectsPermute(s: Section, a: seq<string>, b: seq<string>)
    requires multiset(a) == multiset(b)
    ensures KeyEffects(s, a) == KeyEffects(s, b)
    decreases |a|
  {
    hide KeyEffect, KeyEffects;
    if a == [] {
      assert |multiset(b)| == 0;
    } else {
      var i := Without(a, b);
      var rest := b[..i] + b[i + 1..];
      MoveToFront(s, b, i);
      assert [b[i]] + b[..i] + b[i + 1..] == [a[0]] + rest;
      assert a == [a[0]] + a[1..];
      EffectsOfFirst(s, a[0], a[1..]);
      EffectsOfFirst(s, a[0], rest);
      match KeyEffect(s, a[0])
      case None =>
      case Some(t) => EffectsPermute(t, a[1..], rest);
    }
  }

  function WithOpen(st: State, s: Section): State
    requires st.done != []
  {
    State(st.done[|st.done| - 1 := s.config], s.fields)
  }

  lemma LineEffect(st: State, raw: string)
    requires st.done != [] && NoHeader(raw)
    ensures var e := KeyEffect(Open(st), raw);
      Line(st, raw) == if e.Some? then Ok(WithOpen(st, e.value)) else Bad(EINVAL)
  {
    hide Field, Trim, IndexOf;
    assert WithOpen(st, Open(st)) == st;
  }

  /** Lines without a header change only the open section. */
  lemma {:induction false} KeyLinesLoad(st: State, keys: seq<string>, rest: seq<string>)
    requires st.done != [] && forall i :: 0 <= i < |keys| ==> NoHeader(keys[i])
    ensures var e := KeyEffects(Open(st), keys);
      LoadFrom(st, keys + rest) == if e.Some? then LoadFrom(WithOpen(st, e.value), rest) else Failed(EINVAL)
    decreases |keys|
  {
    hide KeyEffect, Line, NoHeader;
    if keys == [] {
      assert keys + rest == rest;
      assert WithOpen(st, Open(st)) == st;
    } else {
      assert (keys + rest)[1..] == keys[1..] + rest;
      LineEffect(st, keys[0]);
      var e := KeyEffect(Open(st), keys[0]);
      if e.Some? {
        var next := WithOpen(st, e.value);
        KeyLinesLoad(next, keys[1..], rest);
        assert Open(next) == e.value;
        var last := KeyEffects(e.value, keys[1..]);
        assert last.Some? ==> WithOpen(next, last.value) == WithOpen(st, last.value);
      }
    }
  }

  /** Where a run of lines leads, if it leads anywhere. */
  lemma {:induction false} SameTail(st: State, before: seq<string>, a: seq<string>, b: seq<string>)
    requires forall s :: LoadFrom(s, a) == LoadFrom(s, b)
    ensures LoadFrom(st, before + a) == LoadFrom(st, before + b)
    decreases |before|
  {
    hide Line;
    if before == [] {
      assert before + a == a && before + b == b;
    } else {
      assert (before + a)[1..] == before[1..] + a && (before + b)[1..] == before[1..] + b;
      match Line(st, before[0])
      case Bad(_) =>
      case Ok(next) => SameTail(next, before[1..], a, b);
    }
  }

  predicate NoHeaders(keys: seq<string>) {
    forall i :: 0 <= i < |keys| ==> NoHeader(keys[i])
  }

  lemma SameFrom(s: State, keys: seq<string>, keys': seq<string>, after: seq<string>)
    requires multiset(keys) == multiset(keys') && NoHeaders(keys) && NoHeaders(keys')
    ensures LoadFrom(s, keys + after) == LoadFrom(s, keys' + after)
  {
    hide LoadFrom, NoHeader;
    assert |keys| == |multiset(keys)| == |keys'|;
    if s.done != [] {
      KeyLinesLoad(s, keys, after);
      KeyLinesLoad(s, keys', after);
      EffectsPermute(Open(s), keys, keys');
    } else {
      OrphanLines(s, keys, after);
      OrphanLines(s, keys', after);
      assert forall line :: line in keys <==> line in multiset(keys);
      assert forall line :: line in keys' <==> line in multiset(keys');
    }
  }

  /** Any permutation of the lines of a section, its comments and blank lines among them, gives
      the same outcome, errors included, whatever stands before and after. */
  lemma KeyOrderIsIrrelevant(before: seq<string>, keys: seq<string>, keys': seq<string>, after: seq<string>)
    requires multiset(keys) == multiset(keys') && NoHeaders(keys)
    ensures LoadFrom(EMPTY, before + keys + after) == LoadFrom(EMPTY, before + keys' + after)
  {
    hide LoadFrom, NoHeader;
    forall i | 0 <= i < |keys'| ensures NoHeader(keys'[i]) {
      assert keys'[i] in multiset(keys);
    }
    forall s: State ensures LoadFrom(s, keys + after) == LoadFrom(s, keys' + after) {
      SameFrom(s, keys, keys', after);
    }
    SameTail(EMPTY, before, keys + after, keys' + after);
    assert before + keys + after == before + (keys + after);
    assert before + keys' + after == before + (keys' + after);
  }

  /** Before any section, only blank lines and comments are allowed. */
  predicate Harmless(raw: string) {
    |raw| < LINE_SIZE && '\0' !in raw && Ignored(Trim(raw))
  }

  ghost predicate AllHarmless(lines: seq<string>) {
    forall line :: line in lines ==> Harmless(line)
  }

  lemma {:induction false} OrphanLines(st: State, keys: seq<string>, after: seq<string>)
    requires st.done == [] && NoHeaders(keys)
    ensures LoadFrom(st, keys + after) == if AllHarmless(keys) then LoadFrom(st, after) else Failed(EINVAL)
    decreases |keys|
  {
    if keys == [] {
      assert keys + after == after;
    } else {
      assert (keys + after)[1..] == keys[1..] + after;
      OrphanLine(st, keys[0]);
      hide Line, Harmless, NoHeader;
      assert forall line :: line in keys <==> line == keys[0] || line in keys[1..];
      OrphanLines(st, keys[1..], after);
    }
  }

  lemma OrphanLine(st: State, raw: string)
    requires st.done == [] && NoHeader(raw)
    ensures Line(st, raw) == if Harmless(raw) then Ok(st) else Bad(EINVAL)
  {
    hide Trim, IndexOf, Field;
  }
}

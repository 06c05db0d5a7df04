/** Printing a device list and loading it back. */
module DeviceConfigPrint {
  import opened Options
  import opened CType
  import opened Numbers
  import opened DeviceConfig
  import opened DeviceConfigOrder

  // ---------------------------------------------------------------- what a load can produce

  /** Text that survives being a value on a line of its own. */
  predicate Clean(s: string) {
    && '\n' !in s && '\0' !in s
    && (s != "" ==> !IsSpace(s[0]) && !IsSpace(s[|s| - 1]))
  }

  /** A value the key can be given. */
  predicate Given(c: Config, k: Key) {
    match k
    case KType => true
    case KPath => Clean(c.path) && 0 < |c.path| < PATH_SIZE
    case KLedName => Clean(c.ledName) && 0 < |c.ledName| < NAME_SIZE
    case KEnabled => 0 <= c.enabled <= 1
    case KBaudrate => 0 <= c.baudrate <= INT_MAX
    case KAddress => c.address <= UINT32_MAX
    case KOffset => c.offset <= UINT32_MAX
    case KDirection => 0 <= c.gpioOutput <= 1
    case KBias => 0 <= c.bias <= 3
    case KInitial => 0 <= c.initialValue <= 1
  }

  /** The value a key has before it is seen. */
  predicate Unset(c: Config, k: Key) {
    match k
    case KType => c.kind == Uart
    case KPath => c.path == ""
    case KLedName => c.ledName == ""
    case KEnabled => c.enabled == 1
    case KBaudrate => c.baudrate == 115200
    case KAddress => c.address == 0
    case KOffset => c.offset == 0
    case KDirection => c.gpioOutput == 0
    case KBias => c.bias == 0
    case KInitial => c.initialValue == 0
  }

  /** A key not seen has its default; a key seen has a value it can be given. */
  ghost predicate Reflects(s: Section) {
    forall k: Key :: if k in s.fields then Given(s.config, k) else Unset(s.config, k)
  }

  /** A configuration that some section spells out. */
  ghost predicate Canonical(c: Config) {
    exists fields :: Reflects(Section(c, fields)) && SectionValid(Section(c, fields))
  }

  predicate UniqueNames(l: seq<Config>) {
    forall i, k :: 0 <= i < k < |l| ==> l[i].name != l[k].name
  }

  ghost predicate GoodList(l: seq<Config>) {
    && |l| <= MAX_COUNT
    && UniqueNames(l)
    && forall i :: 0 <= i < |l| ==> Canonical(l[i])
  }

  // ---------------------------------------------------------------- every load is good

  lemma TrimWithin(s: string) returns (a: nat)
    ensures a + |Trim(s)| <= |s| && Trim(s) == s[a..a + |Trim(s)|]
    ensures Trim(s) != "" ==> !IsSpace(Trim(s)[0]) && !IsSpace(Trim(s)[|Trim(s)| - 1])
  {
    hide IsSpace, DropFront, DropBack;
    var f := DropFront(s);
    var b := DropBack(f);
    a := |s| - |f|;
    assert s[a..][..|b|] == s[a..a + |b|];
    if b != "" {
      assert b[0] == f[..|b|][0] == f[0];
    }
  }

  lemma TrimIsPart(s: string)
    requires '\n' !in s && '\0' !in s
    ensures Clean(Trim(s)) && |Trim(s)| <= |s|
  {
    hide Trim, IsSpace;
    var a := TrimWithin(s);
  }

  /** A key line sets its own field and no other. */
  lemma AssignedOther(c: Config, k: Key, value: string, other: Key)
    requires k != other && Assigned(c, k, value).Some?
    ensures Given(Assigned(c, k, value).value, other) == Given(c, other)
    ensures Unset(Assigned(c, k, value).value, other) == Unset(c, other)
  {
    hide KindOf, BiasOf, Unsigned, Copied, Clean;
  }

  lemma AssignedGiven(c: Config, k: Key, value: string)
    requires Clean(value) && value != "" && Assigned(c, k, value).Some?
    ensures Given(Assigned(c, k, value).value, k) && Assigned(c, k, value).value.name == c.name
  {
    hide KindOf, WholeNumber, Clean;
  }

  lemma AssignedReflects(s: Section, k: Key, value: string)
    requires Reflects(s) && Clean(value) && value != "" && Assigned(s.config, k, value).Some?
    ensures Reflects(Section(Assigned(s.config, k, value).value, s.fields + {k}))
    ensures Assigned(s.config, k, value).value.name == s.config.name
  {
    hide Assigned, Given, Unset, Clean;
    var c := Assigned(s.config, k, value).value;
    AssignedGiven(s.config, k, value);
    forall other: Key ensures if other in s.fields + {k} then Given(c, other) else Unset(c, other) {
      if other != k {
        AssignedOther(s.config, k, value, other);
      }
    }
  }

  lemma FieldReflects(s: Section, key: string, value: string)
    requires Reflects(s) && Clean(value) && Field(s, key, value).Some?
    ensures Reflects(Field(s, key, value).value) && Field(s, key, value).value.config.name == s.config.name
  {
    hide KeyOf, Reflects, Clean, Assigned;
    AssignedReflects(s, KeyOf(key).value, value);
  }

  /** The state between two lines: all closed sections canonical, the open one in progress. */
  ghost predicate GoodState(st: State) {
    && |st.done| <= MAX_COUNT
    && UniqueNames(st.done)
    && (forall i :: 0 <= i < |st.done| - 1 ==> Canonical(st.done[i]))
    && (st.done != [] ==> Reflects(Open(st)))
  }

  lemma SectionLineKeeps(st: State, text: string)
    requires GoodState(st) && text != "" && text[0] == '[' && SectionLine(st, text).Ok?
    ensures GoodState(SectionLine(st, text).state)
  {
  }

  lemma KeyLineKeeps(st: State, text: string)
    requires GoodState(st) && '\n' !in text && '\0' !in text && KeyLine(st, text).Ok?
    ensures GoodState(KeyLine(st, text).state)
  {
    hide Canonical, Trim, Field;
    var i := IndexOf(text, '=');
    TrimIsPart(text[i + 1..]);
    FieldReflects(Open(st), Trim(text[..i]), Trim(text[i + 1..]));
    var next := KeyLine(st, text).state;
    assert forall k :: 0 <= k < |st.done| ==> next.done[k].name == st.done[k].name;
  }

  lemma LineKeeps(st: State, raw: string)
    requires GoodState(st) && '\n' !in raw && Line(st, raw).Ok?
    ensures GoodState(Line(st, raw).state)
  {
    hide Canonical, GoodState, SectionLine, KeyLine;
    var text := Trim(raw);
    TrimIsPart(raw);
    hide Trim;
    if !Ignored(text) {
      if text[0] == '[' {
        SectionLineKeeps(st, text);
      } else {
        KeyLineKeeps(st, text);
      }
    }
  }

  lemma {:induction false} LoadFromKeeps(st: State, lines: seq<string>)
    requires GoodState(st) && (forall i :: 0 <= i < |lines| ==> '\n' !in lines[i]) && LoadFrom(st, lines).Loaded?
    ensures GoodList(LoadFrom(st, lines).list)
    decreases |lines|
  {
    if lines == [] {
      FinishKeeps(st);
    } else {
      hide GoodState, GoodList, Line;
      LineKeeps(st, lines[0]);
      LoadFromKeeps(Line(st, lines[0]).state, lines[1..]);
    }
  }

  lemma FinishKeeps(st: State)
    requires GoodState(st) && Finish(st).Loaded?
    ensures GoodList(Finish(st).list)
  {
  }

  lemma {:induction false} SplitHasNoNewline(file: string)
    ensures forall i :: 0 <= i < |Split(file)| ==> '\n' !in Split(file)[i]
    decreases |file|
  {
    if file != "" {
      var i := IndexOf(file, '\n');
      if i < |file| {
        SplitHasNoNewline(file[i + 1..]);
      }
    }
  }

  /** Every list that is loaded has at most 16 sections with unique names, each valid, with all
      required keys, only allowed ones, and defaults for the rest. */
  lemma LoadIsGood(file: string)
    requires Load(file).Loaded?
    ensures GoodList(Load(file).list)
  {
    SplitHasNoNewline(file);
    LoadFromKeeps(EMPTY, Split(file));
  }

  // ---------------------------------------------------------------- the printer

  function KindText(k: Kind): string {
    match k case Uart => "uart" case I2c => "i2c" case Oled => "oled" case Gpio => "gpio" case Led => "led"
  }

  function BiasText(b: int): string {
    if b == 1 then "pull_up" else if b == 2 then "pull_down" else if b == 3 then "disabled" else "default"
  }

  function Number(n: int): string {
    if n < 0 then "" else Decimal(n)
  }

  /** The keys a section is printed with, in order: all those its kind allows. */
  function PrintedKeys(c: Config): seq<Key> {
    [KType, KEnabled] +
    match c.kind
    case Uart => [KPath, KBaudrate]
    case I2c => [KPath, KAddress]
    case Oled => [KPath, KAddress]
    case Gpio => [KPath, KOffset, KDirection, if c.gpioOutput != 0 then KInitial else KBias]
    case Led => [KLedName]
  }

  function ValueText(c: Config, k: Key): string {
    match k
    case KType => KindText(c.kind)
    case KPath => c.path
    case KLedName => c.ledName
    case KEnabled => Number(c.enabled)
    case KBaudrate => Number(c.baudrate)
    case KAddress => Number(c.address)
    case KOffset => Number(c.offset)
    case KDirection => if c.gpioOutput == 1 then "output" else "input"
    case KBias => BiasText(c.bias)
    case KInitial => Number(c.initialValue)
  }

  function KeyText(k: Key): string {
    match k
    case KType => "type" case KPath => "path" case KEnabled => "enabled" case KBaudrate => "baudrate"
    case KAddress => "address" case KOffset => "offset" case KDirection => "direction" case KBias => "bias"
    case KInitial => "initial_value" case KLedName => "led_name"
  }

  function PairLine(p: (Key, string)): string {
    KeyText(p.0) + "=" + p.1
  }

  function KeyLines(c: Config, keys: seq<Key>): (ls: seq<string>)
    ensures |ls| == |keys| && forall i :: 0 <= i < |keys| ==> ls[i] == PairLine((keys[i], ValueText(c, keys[i])))
  {
    if keys == [] then [] else [PairLine((keys[0], ValueText(c, keys[0])))] + KeyLines(c, keys[1..])
  }

  function Header(c: Config): string {
    "[" + c.name + "]"
  }

  function SectionLines(c: Config): seq<string> {
    [Header(c)] + KeyLines(c, PrintedKeys(c))
  }

  function ListLines(l: seq<Config>): seq<string> {
    if l == [] then [] else SectionLines(l[0]) + ListLines(l[1..])
  }

  /** Each line ended by a newline. */
  function Text(lines: seq<string>): string {
    if lines == [] then "" else lines[0] + "\n" + Text(lines[1..])
  }

  function Print(l: seq<Config>): string {
    Text(ListLines(l))
  }

  // ---------------------------------------------------------------- a printed key line

  lemma TrimKeeps(s: string)
    requires Clean(s)
    ensures Trim(s) == s
  {
  }

  predicate GoodValue(v: string) {
    Clean(v) && 0 < |v| < PATH_SIZE
  }

  lemma KeyTextIsPlain(k: Key)
    ensures KeyOf(KeyText(k)) == Some(k) && 0 < |KeyText(k)| < 20
    ensures forall i :: 0 <= i < |KeyText(k)| ==> 'a' <= KeyText(k)[i] <= 'z' || KeyText(k)[i] == '_'
  {
  }

  lemma KeyTextIsClean(k: Key)
    ensures Clean(KeyText(k)) && 'a' <= KeyText(k)[0] <= 'z'
  {
  }

  lemma {:induction false} IndexOfAfter(a: string, c: char, b: string)
    requires c !in a
    ensures IndexOf(a + [c] + b, c) == |a|
  {
    var s := a + [c] + b;
    var i := IndexOf(s, c);
    assert s[|a|] == c;
    assert forall k :: 0 <= k < |a| ==> s[k] == a[k] != c;
  }

  lemma PairLineShape(k: Key, v: string)
    requires GoodValue(v)
    ensures var line := PairLine((k, v)); Clean(line) && |line| < LINE_SIZE && line != "" && 'a' <= line[0] <= 'z'
  {
    var key, line := KeyText(k), PairLine((k, v));
    KeyTextIsPlain(k);
    KeyTextIsClean(k);
    hide KeyText;
    assert line[0] == key[0] && line[|line| - 1] == v[|v| - 1];
    assert forall i :: 0 <= i < |key| ==> line[i] == key[i];
    assert forall i :: 0 <= i < |v| ==> line[|key| + 1 + i] == v[i];
  }

  /** Where a printed line is cut, and into what. */
  lemma PairLineParts(k: Key, v: string)
    ensures var line := PairLine((k, v)); var i := IndexOf(line, '=');
      i < |line| && line[..i] == KeyText(k) && line[i + 1..] == v
  {
    var key, line := KeyText(k), PairLine((k, v));
    KeyTextIsPlain(k);
    hide KeyText;
    assert '=' !in key;
    IndexOfAfter(key, '=', v);
    assert line == key + ['='] + v;
  }

  lemma PrintedKeyLine(k: Key, v: string, s: Section)
    requires GoodValue(v)
    ensures NoHeader(PairLine((k, v))) && KeyEffect(s, PairLine((k, v))) == Field(s, KeyText(k), v)
  {
    hide KeyText, Trim, Field, IndexOf, PairLine;
    PairLineShape(k, v);
    PairLineParts(k, v);
    TrimKeeps(PairLine((k, v)));
    KeyTextIsClean(k);
    TrimKeeps(KeyText(k));
    TrimKeeps(v);
  }

  // ---------------------------------------------------------------- a printed section

  lemma NumberIsGood(n: int)
    requires 0 <= n <= UINT32_MAX
    ensures GoodValue(Number(n))
  {
    Uint32Length(n);
    DecimalLeads(n);
  }

  lemma ValueTextIsGood(c: Config, k: Key)
    requires Given(c, k)
    ensures GoodValue(ValueText(c, k))
  {
    hide Decimal;
    match k
    case KEnabled => NumberIsGood(c.enabled);
    case KBaudrate => NumberIsGood(c.baudrate);
    case KAddress => NumberIsGood(c.address);
    case KOffset => NumberIsGood(c.offset);
    case KInitial => NumberIsGood(c.initialValue);
    case _ =>
  }

  /** `t` where its keys are in `keys`, and a fresh section elsewhere. */
  function Merged(t: Config, keys: set<Key>): Config {
    var f := Fresh(t.name);
    Config(t.name,
           if KType in keys then t.kind else f.kind,
           if KPath in keys then t.path else f.path,
           if KEnabled in keys then t.enabled else f.enabled,
           if KBaudrate in keys then t.baudrate else f.baudrate,
           if KAddress in keys then t.address else f.address,
           if KOffset in keys then t.offset else f.offset,
           if KDirection in keys then t.gpioOutput else f.gpioOutput,
           if KInitial in keys then t.initialValue else f.initialValue,
           if KBias in keys then t.bias else f.bias,
           if KLedName in keys then t.ledName else f.ledName)
  }

  /** The printed value of a key is read as that value. */
  lemma ValueReadsBack(t: Config, k: Key, keys: set<Key>)
    requires Given(t, k)
    ensures Assigned(Merged(t, keys), k, ValueText(t, k)) == Some(Merged(t, keys + {k}))
  {
    hide Decimal, Unsigned, Clean;
    match k
    case KEnabled => DecimalReadsBack(t.enabled, 1);
    case KBaudrate => DecimalReadsBack(t.baudrate, INT_MAX);
    case KAddress => DecimalReadsBack(t.address, UINT32_MAX);
    case KOffset => DecimalReadsBack(t.offset, UINT32_MAX);
    case KInitial => DecimalReadsBack(t.initialValue, 1);
    case _ =>
  }

  function SetOf(keys: seq<Key>): set<Key> {
    set k | k in keys
  }

  predicate Distinct(keys: seq<Key>) {
    forall i, j :: 0 <= i < j < |keys| ==> keys[i] != keys[j]
  }

  lemma {:induction false} PrintedEffects(t: Config, keys: seq<Key>, seen: set<Key>)
    requires Distinct(keys) && (forall k :: k in keys ==> Given(t, k)) && SetOf(keys) !! seen
    ensures KeyEffects(Section(Merged(t, seen), seen), KeyLines(t, keys)) ==
      Some(Section(Merged(t, seen + SetOf(keys)), seen + SetOf(keys)))
    decreases |keys|
  {
    hide Merged, ValueText, KeyText, Given, KeyEffect, Field, PairLine;
    if keys == [] {
      assert seen + SetOf(keys) == seen;
    } else {
      var k, rest := keys[0], keys[1..];
      var v := ValueText(t, k);
      assert k in keys;
      PrintedKey(t, k, seen);
      PrintedEffects(t, rest, seen + {k});
      assert SetOf(keys) == {k} + SetOf(rest);
      assert seen + {k} + SetOf(rest) == seen + SetOf(keys);
      EffectsOfFirst(Section(Merged(t, seen), seen), PairLine((k, v)), KeyLines(t, rest));
    }
  }

  lemma PrintedKey(t: Config, k: Key, seen: set<Key>)
    requires Given(t, k) && k !in seen
    ensures KeyEffect(Section(Merged(t, seen), seen), PairLine((k, ValueText(t, k)))) ==
      Some(Section(Merged(t, seen + {k}), seen + {k}))
  {
    hide Merged, ValueText, KeyText, Given, KeyEffect, PairLine, KeyOf, Assigned;
    ValueTextIsGood(t, k);
    ValueReadsBack(t, k, seen);
    PrintedKeyLine(k, ValueText(t, k), Section(Merged(t, seen), seen));
    KeyTextIsPlain(k);
  }

  /** Only the path and the LED name have no default that a line can spell. */
  lemma UnsetIsGiven(c: Config, k: Key)
    requires Unset(c, k) && k != KPath && k != KLedName
    ensures Given(c, k)
  {
  }

  lemma NoDefaultIsRequired(kind: Kind, output: bool, k: Key)
    requires k in Allowed(kind, output) && k !in Required(kind)
    ensures k != KPath && k != KLedName
  {
  }

  lemma MergedIsAll(c: Config, keys: set<Key>)
    requires forall k: Key :: k in keys || Unset(c, k)
    ensures Merged(c, keys) == c
  {
  }

  /** The keys printed for a configuration are between the required and the allowed ones, and
      the keys left out have their defaults. */
  lemma PrintedIsEnough(c: Config)
    requires Canonical(c)
    ensures forall k :: k in PrintedKeys(c) ==> Given(c, k)
    ensures Distinct(PrintedKeys(c)) && Merged(c, SetOf(PrintedKeys(c))) == c
    ensures SectionValid(Section(c, SetOf(PrintedKeys(c))))
  {
    hide ConfigValid, PrintedKeys, Allowed, Required, Given, Unset, Merged, Distinct;
    var fields :| Reflects(Section(c, fields)) && SectionValid(Section(c, fields));
    PrintedAreAllowed(c);
    var keys := SetOf(PrintedKeys(c));
    forall k | k in PrintedKeys(c) ensures Given(c, k) {
      assert k in keys;
      if k !in fields {
        NoDefaultIsRequired(c.kind, c.gpioOutput != 0, k);
        UnsetIsGiven(c, k);
      }
    }
    MergedIsAll(c, keys);
  }

  lemma PrintedAreAllowed(c: Config)
    ensures SetOf(PrintedKeys(c)) == Allowed(c.kind, c.gpioOutput != 0)
    ensures Required(c.kind) <= Allowed(c.kind, c.gpioOutput != 0)
    ensures Distinct(PrintedKeys(c))
  {
    PrintedAreDistinct(c);
    hide Distinct;
  }

  lemma PrintedAreDistinct(c: Config)
    ensures Distinct(PrintedKeys(c))
  {
  }

  // ---------------------------------------------------------------- a printed list

  predicate NoNewlines(lines: seq<string>) {
    forall i :: 0 <= i < |lines| ==> '\n' !in lines[i]
  }

  lemma HeaderShape(c: Config)
    requires NameValid(c.name)
    ensures var h := Header(c); |h| == |c.name| + 2 && h[0] == '[' && h[|h| - 1] == ']' && h[1..|h| - 1] == c.name
    ensures Clean(Header(c)) && |Header(c)| >= 3
  {
  }

  lemma HeaderLine(st: State, c: Config)
    requires NameValid(c.name) && |c.name| < NAME_SIZE && |st.done| < MAX_COUNT
    requires st.done == [] || SectionValid(Open(st))
    requires forall i :: 0 <= i < |st.done| ==> st.done[i].name != c.name
    ensures Line(st, Header(c)) == Ok(State(st.done + [Fresh(c.name)], {}))
  {
    hide SectionValid, Trim, Header, NameValid, KeyLine;
    HeaderShape(c);
    var h := Header(c);
    TrimKeeps(h);
    assert Line(st, h) == SectionLine(st, h);
    assert h[1..|h| - 1] == c.name;
  }

  lemma SectionKeyLines(c: Config)
    requires Canonical(c)
    ensures NoHeaders(KeyLines(c, PrintedKeys(c))) && NoNewlines(KeyLines(c, PrintedKeys(c)))
  {
    hide PrintedKeys, Canonical, PairLine, ValueText, Given, NoHeader;
    PrintedIsEnough(c);
    var keys := PrintedKeys(c);
    forall i | 0 <= i < |keys| ensures NoHeader(KeyLines(c, keys)[i]) && '\n' !in KeyLines(c, keys)[i] {
      assert keys[i] in keys;
      ValueTextIsGood(c, keys[i]);
      PairLineShape(keys[i], ValueText(c, keys[i]));
      PrintedKeyLine(keys[i], ValueText(c, keys[i]), Section(c, {}));
    }
  }

  lemma SectionEffects(c: Config)
    requires Canonical(c)
    ensures KeyEffects(Section(Fresh(c.name), {}), KeyLines(c, PrintedKeys(c))) ==
      Some(Section(c, SetOf(PrintedKeys(c))))
  {
    assert Merged(c, {}) == Fresh(c.name);
    hide PrintedKeys, Canonical, Given, Merged, Distinct, KeyEffects, KeyLines, SetOf;
    PrintedIsEnough(c);
    var keys := PrintedKeys(c);
    assert SetOf(keys) !! {};
    PrintedEffects(c, keys, {});
    assert {} + SetOf(keys) == SetOf(keys);
  }

  lemma LoadAfter(st: State, line: string, rest: seq<string>)
    requires Line(st, line).Ok?
    ensures LoadFrom(st, [line] + rest) == LoadFrom(Line(st, line).state, rest)
  {
    hide Line;
    assert ([line] + rest)[1..] == rest;
  }

  /** A printed section, read after finished ones, adds its configuration. */
  lemma SectionLoads(st: State, c: Config, rest: seq<string>)
    requires Canonical(c) && |st.done| < MAX_COUNT
    requires st.done == [] || SectionValid(Open(st))
    requires forall i :: 0 <= i < |st.done| ==> st.done[i].name != c.name
    ensures LoadFrom(st, SectionLines(c) + rest) == LoadFrom(State(st.done + [c], SetOf(PrintedKeys(c))), rest)
    ensures SectionValid(Section(c, SetOf(PrintedKeys(c))))
  {
    hide SectionValid, Line, LoadFrom, KeyEffects, NoHeader, PrintedKeys, Header, Canonical, KeyLines, SetOf;
    hide NoNewlines, Distinct, Merged, Given, Fresh;
    var lines := KeyLines(c, PrintedKeys(c));
    CanonicalName(c);
    HeaderLine(st, c);
    var next := State(st.done + [Fresh(c.name)], {});
    assert SectionLines(c) + rest == [Header(c)] + (lines + rest);
    LoadAfter(st, Header(c), lines + rest);
    SectionKeyLines(c);
    SectionEffects(c);
    KeyLinesLoad(next, lines, rest);
    assert next.done[|st.done| := c] == st.done + [c];
    PrintedIsEnough(c);
  }

  lemma CanonicalName(c: Config)
    requires Canonical(c)
    ensures NameValid(c.name) && |c.name| < NAME_SIZE
  {
  }

  lemma {:induction false} ListLoads(st: State, l: seq<Config>)
    requires |st.done| + |l| <= MAX_COUNT && UniqueNames(st.done + l)
    requires forall i :: 0 <= i < |l| ==> Canonical(l[i])
    requires st.done == [] || SectionValid(Open(st))
    ensures LoadFrom(st, ListLines(l)) == Loaded(st.done + l)
    decreases |l|
  {
    hide SectionLines, SectionValid, Canonical, Line, SetOf, PrintedKeys;
    if l == [] {
      assert st.done + l == st.done;
    } else {
      var c := l[0];
      var next := State(st.done + [c], SetOf(PrintedKeys(c)));
      forall i | 0 <= i < |st.done| ensures st.done[i].name != c.name {
        assert (st.done + l)[i].name != (st.done + l)[|st.done|].name;
      }
      SectionLoads(st, c, ListLines(l[1..]));
      assert next.done + l[1..] == st.done + l;
      ListLoads(next, l[1..]);
    }
  }

  // ---------------------------------------------------------------- text

  lemma {:induction false} SplitText(lines: seq<string>)
    requires NoNewlines(lines)
    ensures Split(Text(lines)) == lines
    decreases |lines|
  {
    if lines != [] {
      var first, rest := lines[0], Text(lines[1..]);
      IndexOfAfter(first, '\n', rest);
      assert first + "\n" + rest == first + ['\n'] + rest == Text(lines);
      assert Text(lines)[..|first|] == first && Text(lines)[|first| + 1..] == rest;
      SplitText(lines[1..]);
    }
  }

  lemma SectionHasNoNewlines(c: Config)
    requires Canonical(c)
    ensures NoNewlines(SectionLines(c))
  {
    hide Canonical, Header, PrintedKeys, KeyLines, NameValid, NoHeaders;
    CanonicalName(c);
    HeaderShape(c);
    SectionKeyLines(c);
  }

  lemma {:induction false} ListHasNoNewlines(l: seq<Config>)
    requires forall i :: 0 <= i < |l| ==> Canonical(l[i])
    ensures NoNewlines(ListLines(l))
  {
    hide Canonical, SectionLines;
    if l != [] {
      SectionHasNoNewlines(l[0]);
      ListHasNoNewlines(l[1..]);
    }
  }

  /** Loading what was printed gives the same list, for every list a file can describe. */
  lemma PrintThenLoad(l: seq<Config>)
    requires GoodList(l)
    ensures Load(Print(l)) == Loaded(l)
  {
    hide Canonical, UniqueNames;
    ListHasNoNewlines(l);
    SplitText(ListLines(l));
    assert [] + l == l;
    ListLoads(EMPTY, l);
  }

  /** Printing what was loaded and loading that changes nothing. */
  lemma LoadPrintLoad(file: string)
    requires Load(file).Loaded?
    ensures Load(Print(Load(file).list)) == Load(file)
  {
    LoadIsGood(file);
    PrintThenLoad(Load(file).list);
  }
}

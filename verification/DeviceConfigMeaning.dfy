/** What the device configuration file means, line by line and value by value, in plain terms. */
module DeviceConfigMeaning {
  import opened Options
  import opened CType
  import opened Errno
  import opened Numbers
  import opened DeviceConfig
  import opened DeviceConfigOrder
  import opened DeviceConfigPrint

  // ---------------------------------------------------------------- numbers

  function DigitOf(d: nat): (c: char)
    requires d < 16
    ensures IsHex(c) && HexValue(c) == d && (d < 8 ==> IsOctal(c)) && c != 'x' && c != 'X'
  {
    if d < 10 then '0' + d as char else 'a' + (d - 10) as char
  }

  /** A number written in some base, without leading zeros. */
  function TextIn(base: nat, n: nat): (s: string)
    requires base == 8 || base == 16
    ensures s != "" && forall i :: 0 <= i < |s| ==>
      IsHex(s[i]) && (base <= 8 ==> IsOctal(s[i])) && s[i] != 'x' && s[i] != 'X'
    decreases n
  {
    if n < base then [DigitOf(n)] else TextIn(base, n / base) + [DigitOf(n % base)]
  }

  lemma {:induction false} ValueOfText(base: nat, n: nat)
    requires base == 8 || base == 16
    ensures ValueIn(base, TextIn(base, n)) == n
    decreases n
  {
    var s := TextIn(base, n);
    if n < base {
      assert s[..0] == "";
      assert ValueIn(base, "") == 0;
    } else {
      ValueOfText(base, n / base);
      ValueOfLast(base, TextIn(base, n / base), DigitOf(n % base));
      assert n == (if base == 8 then 8 * (n / 8) + n % 8 else 16 * (n / 16) + n % 16);
    }
  }

  lemma ValueOfLast(base: nat, s: string, c: char)
    requires IsHex(c) && forall i :: 0 <= i < |s| ==> IsHex(s[i])
    ensures forall i :: 0 <= i < |s + [c]| ==> IsHex((s + [c])[i])
    ensures ValueIn(base, s + [c]) == ValueIn(base, s) * base + HexValue(c)
  {
    hide HexValue, IsHex;
    assert (s + [c])[..|s|] == s;
  }

  /** A number in hexadecimal after "0x" or "0X" is read as that number. */
  lemma HexadecimalReadsBack(x: char, n: nat, maximum: nat)
    requires (x == 'x' || x == 'X') && n <= maximum
    ensures Unsigned("0" + [x] + TextIn(16, n), maximum) == Some(n)
  {
    ValueOfText(16, n);
    var digits := TextIn(16, n);
    var s := "0" + [x] + digits;
    assert s[2..] == digits && s[0] == '0' && s[1] == x;
  }

  /** And in octal after "0". */
  lemma OctalReadsBack(n: nat, maximum: nat)
    requires n <= maximum
    ensures Unsigned("0" + TextIn(8, n), maximum) == Some(n)
  {
    ValueOfText(8, n);
    var digits := TextIn(8, n);
    var s := "0" + digits;
    assert s[1] == digits[0];
    assert forall i :: 0 < i < |s| ==> s[i] == digits[i - 1];
    LeadingZero(8, digits);
  }

  /** A leading zero adds nothing. */
  lemma {:induction false} LeadingZero(base: nat, s: string)
    requires forall i :: 0 <= i < |s| ==> IsHex(s[i])
    ensures (forall i :: 0 <= i < |"0" + s| ==> IsHex(("0" + s)[i])) && ValueIn(base, "0" + s) == ValueIn(base, s)
  {
    var t := "0" + s;
    assert forall i :: 0 < i < |t| ==> t[i] == s[i - 1];
    if s == "" {
      assert t[..0] == "" && ValueIn(base, t[..0]) == 0;
    } else {
      LeadingZero(base, s[..|s| - 1]);
      assert t[..|t| - 1] == "0" + s[..|s| - 1];
    }
  }

  /** Capital and small hexadecimal digits are worth the same. */
  lemma CaseIsIrrelevant(d: nat)
    requires d < 6
    ensures IsHex('a' + d as char) && IsHex('A' + d as char)
    ensures HexValue('a' + d as char) == HexValue('A' + d as char) == 10 + d
  {
  }

  /** What the digits come to, one after the other. */
  ghost predicate Sums(base: nat, s: string, sums: seq<nat>) {
    && |sums| == |s| + 1 && sums[0] == 0
    && forall i :: 0 <= i < |s| ==> IsHex(s[i]) && sums[i + 1] == sums[i] * base + HexValue(s[i])
  }

  ghost predicate Reads(base: nat, s: string, n: nat) {
    s != "" && exists sums :: Sums(base, s, sums) && sums[|s|] == n
  }

  lemma {:induction false} SumsExist(base: nat, s: string) returns (sums: seq<nat>)
    requires forall i :: 0 <= i < |s| ==> IsHex(s[i])
    ensures Sums(base, s, sums)
  {
    hide HexValue, IsHex;
    if s == "" {
      return [0];
    }
    var k := |s| - 1;
    var before := SumsExist(base, s[..k]);
    sums := before + [before[k] * base + HexValue(s[k])];
    forall i | 0 <= i < |s| ensures sums[i + 1] == sums[i] * base + HexValue(s[i]) {
      if i < k {
        assert s[..k][i] == s[i];
      }
    }
  }

  lemma {:induction false} SumsAreValue(base: nat, s: string, sums: seq<nat>)
    requires Sums(base, s, sums)
    ensures sums[|s|] == ValueIn(base, s)
  {
    if s != "" {
      var k := |s| - 1;
      SumsAreValue(base, s[..k], sums[..k + 1]);
      assert s == s[..k] + [s[k]];
    }
  }

  lemma ReadsIsValue(base: nat, s: string, n: nat)
    ensures Reads(base, s, n) <==> s != "" && (forall i :: 0 <= i < |s| ==> IsHex(s[i])) && ValueIn(base, s) == n
  {
    hide ValueIn, IsHex, HexValue;
    if sums :| Sums(base, s, sums) && sums[|s|] == n {
      SumsAreValue(base, s, sums);
    }
    if forall i :: 0 <= i < |s| ==> IsHex(s[i]) {
      var sums := SumsExist(base, s);
      SumsAreValue(base, s, sums);
    }
  }

  /** Which texts are numbers, and which: hexadecimal after 0x or 0X, octal after 0, decimal otherwise,
      without sign or space, and at most the maximum. */
  lemma NumberExactly(s: string, maximum: nat, n: nat)
    ensures Unsigned(s, maximum) == Some(n) <==>
      && n <= maximum && s != ""
      && (|| (|s| > 2 && (s[..2] == "0x" || s[..2] == "0X") && Reads(16, s[2..], n))
          || (s[0] == '0' && (forall i :: 0 <= i < |s| ==> '0' <= s[i] <= '7') && Reads(8, s, n))
          || ('1' <= s[0] <= '9' && (forall i :: 0 <= i < |s| ==> '0' <= s[i] <= '9') && Reads(10, s, n)))
  {
    hide ValueIn, Reads;
    ReadsIsValue(8, s, n);
    ReadsIsValue(10, s, n);
    if |s| > 2 {
      ReadsIsValue(16, s[2..], n);
    }
    assert |s| >= 2 ==> s[..2] == [s[0], s[1]];
  }

  // ---------------------------------------------------------------- space

  predicate AllSpace(s: string) {
    forall i :: 0 <= i < |s| ==> IsSpace(s[i])
  }

  /** Text that neither begins nor ends with space. */
  predicate Tight(s: string) {
    s != "" ==> !IsSpace(s[0]) && !IsSpace(s[|s| - 1])
  }

  lemma {:induction false} FrontIsSpace(s: string)
    ensures AllSpace(s[..|s| - |DropFront(s)|])
  {
    if s != "" && IsSpace(s[0]) {
      FrontIsSpace(s[1..]);
      var n := |s| - |DropFront(s)|;
      assert s[..n] == [s[0]] + s[1..][..n - 1];
    }
  }

  lemma {:induction false} BackIsSpace(s: string)
    ensures AllSpace(s[|DropBack(s)|..])
  {
    if s != "" && IsSpace(s[|s| - 1]) {
      var init := s[..|s| - 1];
      BackIsSpace(init);
      var n := |DropBack(s)|;
      assert s[n..] == init[n..] + [s[|s| - 1]];
    }
  }

  /** Trimming takes away space at both ends, all of it, and nothing else. */
  lemma TrimExactly(s: string) returns (before: string, after: string)
    ensures s == before + Trim(s) + after && AllSpace(before) && AllSpace(after) && Tight(Trim(s))
  {
    hide DropFront, DropBack, IsSpace;
    FrontIsSpace(s);
    BackIsSpace(DropFront(s));
    var a := TrimWithin(s);
    before, after := s[..|s| - |DropFront(s)|], DropFront(s)[|DropBack(DropFront(s))|..];
    Pieces(s, DropFront(s), DropBack(DropFront(s)));
  }

  lemma Pieces(s: string, f: string, b: string)
    requires |f| <= |s| && s[|s| - |f|..] == f && |b| <= |f| && f[..|b|] == b
    ensures s == s[..|s| - |f|] + b + f[|b|..]
  {
    assert f == b + f[|b|..];
    assert s == s[..|s| - |f|] + f;
  }

  /** So tight text with any space around it is what trimming finds. */
  lemma TrimOfSpaced(before: string, s: string, after: string)
    requires AllSpace(before) && AllSpace(after) && Tight(s)
    ensures Trim(before + s + after) == s
  {
    assert before + s + after == before + (s + after);
    DropFrontOf(before, s + after);
    if s == "" {
      assert s + after == after && after + "" == after;
      DropFrontOf(after, "");
      NothingDropped("");
    } else {
      assert (s + after)[0] == s[0];
      NothingDropped(s + after);
      DropBackOf(s, after);
    }
    hide DropFront, DropBack, IsSpace;
  }

  lemma NothingDropped(s: string)
    requires s != "" ==> !IsSpace(s[0])
    ensures DropFront(s) == s && DropBack("") == ""
  {
  }

  lemma {:induction false} DropFrontOf(before: string, s: string)
    requires AllSpace(before)
    ensures DropFront(before + s) == DropFront(s)
  {
    if before == "" {
      assert before + s == s;
    } else {
      assert (before + s)[1..] == before[1..] + s;
      DropFrontOf(before[1..], s);
    }
  }

  lemma {:induction false} DropBackOf(s: string, after: string)
    requires AllSpace(after) && s != "" && !IsSpace(s[|s| - 1])
    ensures DropBack(s + after) == s
    decreases |after|
  {
    if after == "" {
      assert s + after == s;
    } else {
      assert (s + after)[..|s + after| - 1] == s + after[..|after| - 1];
      DropBackOf(s, after[..|after| - 1]);
    }
  }

  // ---------------------------------------------------------------- lines

  /** A line leaves everything as it is exactly if it is not too long and is blank or a comment. */
  lemma IgnoredExactly(st: State, raw: string)
    ensures Line(st, raw) == Ok(st) <==>
      && |raw| < 512 && '\0' !in raw
      && (Trim(raw) == "" || Trim(raw)[0] == '#' || Trim(raw)[0] == ';')
  {
    hide Trim, SectionValid;
    var text := Trim(raw);
    if |raw| < 512 && '\0' !in raw && text != "" && text[0] != '#' && text[0] != ';' {
      if text[0] == '[' {
        HeaderGrows(st, text);
      } else {
        KeyGrows(st, text);
      }
    }
  }

  lemma HeaderGrows(st: State, text: string)
    requires text != "" && text[0] == '['
    ensures SectionLine(st, text) != Ok(st)
  {
    hide SectionValid, NameValid;
    var r := SectionLine(st, text);
    assert r.Ok? ==> |r.state.done| == |st.done| + 1;
  }

  lemma KeyGrows(st: State, text: string)
    ensures KeyLine(st, text) != Ok(st)
  {
    hide Trim, IndexOf, Assigned, KeyOf;
  }

  /** A section header is a name in brackets, after a complete section, new, and at most the 16th. */
  lemma HeaderExactly(st: State, text: string)
    requires text != "" && text[0] == '['
    ensures SectionLine(st, text).Ok? <==>
      exists name :: text == "[" + name + "]" && HeaderFits(st, name)
    ensures forall name :: text == "[" + name + "]" && HeaderFits(st, name) ==>
      SectionLine(st, text) == Ok(State(st.done + [Fresh(name)], {}))
  {
    hide SectionValid, NameValid;
    if |text| >= 3 && text[|text| - 1] == ']' {
      assert text == "[" + text[1..|text| - 1] + "]";
    }
    forall name | text == "[" + name + "]" && HeaderFits(st, name)
      ensures SectionLine(st, text) == Ok(State(st.done + [Fresh(name)], {}))
    {
      assert text[1..|text| - 1] == name && text[|text| - 1] == ']';
    }
  }

  /** The error of a header that does not fit: EEXIST for a name taken, ENOSPC for a 17th section,
      EINVAL for anything else, which comes first. */
  lemma HeaderErrors(st: State, text: string)
    requires text != "" && text[0] == '[' && SectionLine(st, text).Bad?
    ensures var e := SectionLine(st, text).e;
      var sound := |text| >= 3 && text[|text| - 1] == ']' && (st.done != [] ==> SectionValid(Open(st))) &&
        NameValid(text[1..|text| - 1]) && |text| <= 65;
      && (!sound ==> e == EINVAL)
      && (sound && (exists i :: 0 <= i < |st.done| && st.done[i].name == text[1..|text| - 1]) ==> e == EEXIST)
      && (sound && (forall i :: 0 <= i < |st.done| ==> st.done[i].name != text[1..|text| - 1]) ==>
            e == ENOSPC && |st.done| == 16)
  {
    hide SectionValid, NameValid;
  }

  predicate HeaderFits(st: State, name: string) {
    && 1 <= |name| <= 63 && NameValid(name) && |st.done| != 16
    && (st.done != [] ==> SectionValid(Open(st)))
    && forall i :: 0 <= i < |st.done| ==> st.done[i].name != name
  }

  /** A key line gives its key its value, whatever space stands around either. */
  lemma SpacedKeyLine(s: Section, a: string, k: Key, b: string, c: string, v: string, d: string)
    requires AllSpace(a) && AllSpace(b) && AllSpace(c) && AllSpace(d) && GoodValue(v)
    requires var raw := a + KeyText(k) + b + "=" + c + v + d; |raw| < LINE_SIZE && '\0' !in raw
    ensures KeyEffect(s, a + KeyText(k) + b + "=" + c + v + d) == Field(s, KeyText(k), v)
  {
    hide IsSpace, Field, Trim, KeyText, KeyOf;
    var key := KeyText(k);
    var raw := a + key + b + "=" + c + v + d;
    KeyTextIsClean(k);
    KeyTextIsPlain(k);
    assert key != "";
    var text := key + b + "=" + c + v;
    assert raw == a + text + d;
    assert text[0] == key[0] && text[|text| - 1] == v[|v| - 1];
    TrimOfSpaced(a, text, d);
    NoEquals(key, b);
    IndexOfAfter(key + b, '=', c + v);
    assert text == (key + b) + ['='] + (c + v);
    assert text[..|key + b|] == key + b && text[|key + b| + 1..] == c + v;
    TrimOfSpaced("", key, b);
    assert "" + key + b == key + b;
    TrimOfSpaced(c, v, "");
    assert c + v + "" == c + v;
  }

  lemma NoEquals(key: string, b: string)
    requires (forall i :: 0 <= i < |key| ==> 'a' <= key[i] <= 'z' || key[i] == '_') && AllSpace(b)
    ensures '=' !in key + b
  {
    assert forall i :: 0 <= i < |b| ==> IsSpace(b[i]) && b[i] != '=';
  }

  // ---------------------------------------------------------------- keys and their values

  /** The words of the file are these, each in one spelling. */
  lemma WordsExactly(s: string)
    ensures forall k: Key :: KeyOf(s) == Some(k) <==> s == KeyText(k)
    ensures forall k: Kind :: KindOf(s) == Some(k) <==> s == KindText(k)
    ensures forall b: int :: BiasOf(s) == Some(b) <==> 0 <= b <= 3 && s == BiasText(b)
  {
    hide KeyOf, KindOf, BiasOf;
    KeysExactly(s);
    KindsExactly(s);
    BiasesExactly(s);
  }

  lemma KeysExactly(s: string)
    ensures forall k: Key :: KeyOf(s) == Some(k) <==> s == KeyText(k)
  {
  }

  lemma KindsExactly(s: string)
    ensures forall k: Kind :: KindOf(s) == Some(k) <==> s == KindText(k)
  {
  }

  lemma BiasesExactly(s: string)
    ensures forall b: int :: BiasOf(s) == Some(b) <==> 0 <= b <= 3 && s == BiasText(b)
  {
  }

  /** The text is this number, and it is at most `maximum`. */
  predicate Numeral(text: string, n: int, maximum: int) {
    WholeNumber(text).Some? && n == WholeNumber(text).value && n <= maximum
  }

  /** The configuration has for this key what the value says. */
  predicate Says(k: Key, value: string, c: Config) {
    match k
    case KType => value == KindText(c.kind)
    case KPath => value == c.path && 1 <= |value| <= 255
    case KLedName => value == c.ledName && 1 <= |value| <= 63
    case KEnabled => Numeral(value, c.enabled, 1)
    case KBaudrate => Numeral(value, c.baudrate, 2147483647)
    case KAddress => Numeral(value, c.address, 4294967295)
    case KOffset => Numeral(value, c.offset, 4294967295)
    case KDirection => (value == "input" && c.gpioOutput == 0) || (value == "output" && c.gpioOutput == 1)
    case KBias => 0 <= c.bias <= 3 && value == BiasText(c.bias)
    case KInitial => Numeral(value, c.initialValue, 1)
  }

  /** Nothing else has changed. */
  predicate SameBut(k: Key, c: Config, d: Config) {
    && c.name == d.name
    && (k != KType ==> c.kind == d.kind) && (k != KPath ==> c.path == d.path)
    && (k != KLedName ==> c.ledName == d.ledName) && (k != KEnabled ==> c.enabled == d.enabled)
    && (k != KBaudrate ==> c.baudrate == d.baudrate) && (k != KAddress ==> c.address == d.address)
    && (k != KOffset ==> c.offset == d.offset) && (k != KDirection ==> c.gpioOutput == d.gpioOutput)
    && (k != KBias ==> c.bias == d.bias) && (k != KInitial ==> c.initialValue == d.initialValue)
  }

  lemma AssignedExactly(c: Config, k: Key, value: string, d: Config)
    ensures Assigned(c, k, value) == Some(d) <==> Says(k, value, d) && SameBut(k, c, d)
  {
    hide WholeNumber, KindOf, BiasOf, KindText, BiasText;
    KindsExactly(value);
    BiasesExactly(value);
  }

  /** A key with a value is taken exactly if it is a key not seen yet and the value says something for
      it; then that is what the section has, and nothing else has changed. */
  lemma FieldExactly(s: Section, key: string, value: string, t: Section)
    ensures Field(s, key, value) == Some(t) <==>
      value != "" && exists k ::
        key == KeyText(k) && k !in s.fields && t.fields == s.fields + {k} && Says(k, value, t.config) &&
        SameBut(k, s.config, t.config)
  {
    hide Assigned, Says, SameBut, KeyOf, KeyText;
    KeysExactly(key);
    forall k ensures Assigned(s.config, k, value) == Some(t.config) <==>
        Says(k, value, t.config) && SameBut(k, s.config, t.config)
    {
      AssignedExactly(s.config, k, value, t.config);
    }
  }

  /** A line is a key and a value, cut at the first '='; it takes effect on the open section or is EINVAL. */
  lemma KeyLineExactly(st: State, text: string)
    ensures '=' !in text ==> KeyLine(st, text) == Bad(EINVAL)
    ensures forall a, b :: text == a + "=" + b && '=' !in a ==>
      KeyLine(st, text) ==
        if st.done != [] && Field(Open(st), Trim(a), Trim(b)).Some?
        then Ok(WithOpen(st, Field(Open(st), Trim(a), Trim(b)).value)) else Bad(EINVAL)
  {
    hide KeyLine, Field, Trim;
    if '=' !in text {
      NoKeyLine(st, text);
    }
    forall a, b | text == a + "=" + b && '=' !in a
      ensures KeyLine(st, text) ==
        if st.done != [] && Field(Open(st), Trim(a), Trim(b)).Some?
        then Ok(WithOpen(st, Field(Open(st), Trim(a), Trim(b)).value)) else Bad(EINVAL)
    {
      KeyLineOf(st, a, b);
    }
  }

  lemma NoKeyLine(st: State, text: string)
    requires '=' !in text
    ensures KeyLine(st, text) == Bad(EINVAL)
  {
    hide Field, Trim;
  }

  lemma KeyLineOf(st: State, a: string, b: string)
    requires '=' !in a
    ensures KeyLine(st, a + "=" + b) ==
      if st.done != [] && Field(Open(st), Trim(a), Trim(b)).Some?
      then Ok(WithOpen(st, Field(Open(st), Trim(a), Trim(b)).value)) else Bad(EINVAL)
  {
    hide Field, Trim, IndexOf;
    IndexOfAfter(a, '=', b);
    var text := a + "=" + b;
    assert text == a + ['='] + b;
    assert text[..|a|] == a && text[|a| + 1..] == b;
  }

  /** The keys a section must and may have, for each kind of device. */
  predicate Complete(s: Section) {
    var kind, output := s.config.kind, s.config.gpioOutput != 0;
    && KType in s.fields
    && (KPath in s.fields <==> kind != Led)
    && (KLedName in s.fields <==> kind == Led)
    && (KAddress in s.fields <==> kind == I2c || kind == Oled)
    && (KOffset in s.fields <==> kind == Gpio)
    && (KBaudrate in s.fields ==> kind == Uart)
    && (KDirection in s.fields ==> kind == Gpio)
    && (KBias in s.fields ==> kind == Gpio && !output)
    && (KInitial in s.fields ==> kind == Gpio && output)
  }

  lemma KeyIsAllowed(s: Section, k: Key)
    requires Complete(s) && k in s.fields
    ensures k in Allowed(s.config.kind, s.config.gpioOutput != 0)
  {
    match k
    case KType =>
    case KPath =>
    case KEnabled =>
    case KBaudrate =>
    case KAddress =>
    case KOffset =>
    case KDirection =>
    case KBias =>
    case KInitial =>
    case KLedName =>
  }

  /** A section is complete exactly with those keys and a valid configuration. */
  lemma CompleteExactly(s: Section)
    ensures SectionValid(s) <==> Complete(s) && ConfigValid(s.config)
  {
    hide ConfigValid;
    if Complete(s) {
      forall k | k in s.fields ensures k in Allowed(s.config.kind, s.config.gpioOutput != 0) {
        KeyIsAllowed(s, k);
      }
    }
  }

  // ---------------------------------------------------------------- the file

  /** The lines are taken one after the other up to the first bad one, whose error is that of the file;
      if there is none, the last section must be complete. */
  lemma {:induction false} LoadsExactly(st: State, lines: seq<string>) returns (states: seq<State>)
    ensures 0 < |states| <= |lines| + 1 && states[0] == st
    ensures forall i :: 0 < i < |states| ==> Line(states[i - 1], lines[i - 1]) == Ok(states[i])
    ensures var n := |states| - 1;
      if n < |lines| then Line(states[n], lines[n]).Bad? && LoadFrom(st, lines) == Failed(Line(states[n], lines[n]).e)
      else
        LoadFrom(st, lines) ==
          if states[n].done == [] || SectionValid(Open(states[n])) then Loaded(states[n].done) else Failed(EINVAL)
    decreases |lines|
  {
    hide Line, SectionValid;
    states := [st];
    if lines != [] && Line(st, lines[0]).Ok? {
      var rest := LoadsExactly(Line(st, lines[0]).state, lines[1..]);
      states := [st] + rest;
    }
  }

  // ---------------------------------------------------------------- configurations

  predicate PlainPath(path: string) {
    2 <= |path| <= 255 && path[0] == '/' && Clean(path)
  }

  /** The fields a kind does not have are at their defaults. */
  predicate OthersDefault(c: Config) {
    && (c.kind != Led ==> c.ledName == "")
    && (c.kind == Led ==> c.path == "")
    && (c.kind != Uart ==> c.baudrate == 115200)
    && (c.kind != I2c && c.kind != Oled ==> c.address == 0)
    && (c.kind != Gpio ==> c.offset == 0 && c.gpioOutput == 0 && c.bias == 0 && c.initialValue == 0)
  }

  /** The configurations a file can give, in plain numbers. */
  predicate Plain(c: Config) {
    && 1 <= |c.name| <= 63 && NameValid(c.name) && 0 <= c.enabled <= 1 && OthersDefault(c)
    && match c.kind
       case Uart => PlainPath(c.path) && c.baudrate in {9600, 19200, 38400, 57600, 115200, 230400}
       case I2c => PlainPath(c.path) && 3 <= c.address <= 119
       case Oled => PlainPath(c.path) && 3 <= c.address <= 119
       case Gpio =>
         && PlainPath(c.path) && c.offset <= 4294967295
         && (|| (c.gpioOutput == 0 && 0 <= c.bias <= 3 && c.initialValue == 0)
             || (c.gpioOutput == 1 && c.bias == 0 && 0 <= c.initialValue <= 1))
       case Led => LedNameValid(c.ledName) && |c.ledName| <= 63 && Clean(c.ledName)
  }

  lemma PlainIsGiven(c: Config, k: Key)
    requires Plain(c)
    ensures if k in Allowed(c.kind, c.gpioOutput != 0) then Given(c, k) else Unset(c, k)
  {
    hide Clean, NameValid;
  }

  lemma PlainIsValid(c: Config)
    requires Plain(c)
    ensures ConfigValid(c)
  {
    hide Clean, NameValid;
  }

  lemma CanonicalIsPlain(c: Config, fields: set<Key>)
    requires Reflects(Section(c, fields)) && SectionValid(Section(c, fields))
    ensures Plain(c)
  {
    hide Clean, Given, Unset;
    var s := Section(c, fields);
    assert forall k: Key :: if k in s.fields then Given(c, k) else Unset(c, k);
    FieldIsPlain(c, fields, KPath);
    FieldIsPlain(c, fields, KLedName);
    FieldIsPlain(c, fields, KEnabled);
    FieldIsPlain(c, fields, KBaudrate);
    FieldIsPlain(c, fields, KAddress);
    FieldIsPlain(c, fields, KOffset);
    FieldIsPlain(c, fields, KDirection);
    FieldIsPlain(c, fields, KBias);
    FieldIsPlain(c, fields, KInitial);
  }

  /** What Given and Unset say of one key, in terms of its field. */
  lemma FieldIsPlain(c: Config, fields: set<Key>, k: Key)
    requires if k in fields then Given(c, k) else Unset(c, k)
    ensures match k
      case KPath => if k in fields then Clean(c.path) && 0 < |c.path| <= 255 else c.path == ""
      case KLedName => if k in fields then Clean(c.ledName) && 0 < |c.ledName| <= 63 else c.ledName == ""
      case KEnabled => 0 <= c.enabled <= 1
      case KBaudrate => k !in fields ==> c.baudrate == 115200
      case KAddress => k !in fields ==> c.address == 0
      case KOffset => c.offset <= UINT32_MAX && (k !in fields ==> c.offset == 0)
      case KDirection => 0 <= c.gpioOutput <= 1 && (k !in fields ==> c.gpioOutput == 0)
      case KBias => 0 <= c.bias <= 3 && (k !in fields ==> c.bias == 0)
      case KInitial => 0 <= c.initialValue <= 1 && (k !in fields ==> c.initialValue == 0)
      case KType => true
  {
    hide Clean;
  }

  /** A section of a file can give exactly the plain configurations. */
  lemma CanonicalExactly(c: Config)
    ensures Canonical(c) <==> Plain(c)
  {
    hide Plain, Reflects, SectionValid;
    if fields :| Reflects(Section(c, fields)) && SectionValid(Section(c, fields)) {
      CanonicalIsPlain(c, fields);
    }
    if Plain(c) {
      PlainIsCanonical(c);
    }
  }

  lemma PlainIsCanonical(c: Config)
    requires Plain(c)
    ensures Canonical(c)
  {
    hide Plain, Given, Unset, ConfigValid, Allowed, Required, PrintedKeys;
    var fields := Allowed(c.kind, c.gpioOutput != 0);
    forall k: Key ensures if k in fields then Given(c, k) else Unset(c, k) {
      PlainIsGiven(c, k);
    }
    PlainIsValid(c);
    PrintedAreAllowed(c);
    assert Reflects(Section(c, fields)) && SectionValid(Section(c, fields));
  }

  /** So a list of devices can be loaded from a file, its own print, exactly if it has at most 16
      plain configurations with unique names. */
  lemma LoadableExactly(l: seq<Config>)
    ensures (exists file :: Load(file) == Loaded(l)) <==>
      |l| <= 16 && UniqueNames(l) && forall i :: 0 <= i < |l| ==> Plain(l[i])
  {
    hide Load, Plain, Canonical, UniqueNames, Print;
    forall i | 0 <= i < |l| ensures Canonical(l[i]) <==> Plain(l[i]) {
      CanonicalExactly(l[i]);
    }
    if file :| Load(file) == Loaded(l) {
      LoadIsGood(file);
    }
    if |l| <= 16 && UniqueNames(l) && forall i :: 0 <= i < |l| ==> Plain(l[i]) {
      PrintThenLoad(l);
    }
  }
}

/** The device configuration file: src/device_config.c. Strings are C strings without NUL. */
module DeviceConfig {
  import opened Options
  import opened CType
  import opened Errno
  import opened Numbers

  const NAME_SIZE: nat := 64
  const PATH_SIZE: nat := 256
  const LINE_SIZE: nat := 512
  const MAX_COUNT: nat := 16
  const INT_MAX: nat := 0x7FFF_FFFF

  datatype Kind = Uart | I2c | Oled | Gpio | Led

  datatype Config = Config(
    name: string, kind: Kind, path: string, enabled: int, baudrate: int, address: nat, offset: nat,
    gpioOutput: int, initialValue: int, bias: int, ledName: string)

  /** `device_config_init`, with the name of the section. */
  function Fresh(name: string): Config {
    Config(name, Uart, "", 1, 115200, 0, 0, 0, 0, 0, "")
  }

  // ---------------------------------------------------------------- validation

  predicate NameChar(c: char) {
    IsAlnum(c) || c == '_' || c == '-'
  }

  predicate NameValid(name: string) {
    name != "" && forall i :: 0 <= i < |name| ==> NameChar(name[i])
  }

  predicate LedNameChar(c: char) {
    c != '/' && !IsSpace(c) && c >= ' ' && c != '\U{7F}'
  }

  predicate LedNameValid(name: string) {
    name != "" && name != "." && name != ".." && forall i :: 0 <= i < |name| ==> LedNameChar(name[i])
  }

  /** `device_config_validate`. */
  predicate ConfigValid(c: Config) {
    && |c.name| < NAME_SIZE && |c.path| < PATH_SIZE && |c.ledName| < NAME_SIZE
    && NameValid(c.name)
    && (c.enabled == 0 || c.enabled == 1)
    && match c.kind
       case Led => LedNameValid(c.ledName)
       case Uart => PathValid(c.path) && c.baudrate in {9600, 19200, 38400, 57600, 115200, 230400}
       case I2c => PathValid(c.path) && 0x03 <= c.address <= 0x77
       case Oled => PathValid(c.path) && 0x03 <= c.address <= 0x77
       case Gpio =>
         && PathValid(c.path)
         && (c.gpioOutput == 0 || c.gpioOutput == 1)
         && (c.initialValue == 0 || c.initialValue == 1)
         && 0 <= c.bias <= 3
         && (c.gpioOutput == 1 ==> c.bias == 0)
  }

  predicate PathValid(path: string) {
    |path| > 1 && path[0] == '/'
  }

  // ---------------------------------------------------------------- values

  function DropFront(s: string): (r: string)
    ensures |r| <= |s| && s[|s| - |r|..] == r
    ensures r != "" ==> !IsSpace(r[0])
  {
    if s == "" || !IsSpace(s[0]) then s else DropFront(s[1..])
  }

  function DropBack(s: string): (r: string)
    ensures |r| <= |s| && s[..|r|] == r
    ensures r != "" ==> !IsSpace(r[|r| - 1])
  {
    if s == "" || !IsSpace(s[|s| - 1]) then s else DropBack(s[..|s| - 1])
  }

  /** `config_trim`. */
  function Trim(s: string): string {
    DropBack(DropFront(s))
  }

  predicate IsOctal(c: char) {
    '0' <= c <= '7'
  }

  predicate IsHex(c: char) {
    IsDigit(c) || 'a' <= c <= 'f' || 'A' <= c <= 'F'
  }

  function HexValue(c: char): nat
    requires IsHex(c)
  {
    if IsDigit(c) then DigitValue(c)
    else if 'a' <= c then c as int - 'a' as int + 10
    else c as int - 'A' as int + 10
  }

  function ValueIn(base: nat, s: string): nat
    requires forall i :: 0 <= i < |s| ==> IsHex(s[i])
  {
    if s == "" then 0 else ValueIn(base, s[..|s| - 1]) * base + HexValue(s[|s| - 1])
  }

  predicate All(s: string, p: char -> bool) {
    forall i :: 0 <= i < |s| ==> p(s[i])
  }

  /** strtoul with base 0 over the whole text: 0x for hexadecimal, 0 for octal. */
  function WholeNumber(s: string): Option<nat> {
    if |s| > 2 && s[0] == '0' && (s[1] == 'x' || s[1] == 'X') && All(s[2..], IsHex) then Some(ValueIn(16, s[2..]))
    else if s != "" && s[0] == '0' && All(s, IsOctal) then Some(ValueIn(8, s))
    else if s != "" && s[0] != '0' && All(s, IsDigit) then Some(ValueIn(10, s))
    else None
  }

  /** `config_unsigned`; a leading sign or space is refused before strtoul sees it. */
  function Unsigned(s: string, maximum: nat): Option<nat> {
    match WholeNumber(s)
    case Some(n) => if n <= maximum then Some(n) else None
    case None => None
  }

  lemma {:induction false} ValueInTen(s: string)
    requires AllDigits(s)
    ensures ValueIn(10, s) == Value(s)
  {
    if s != "" {
      ValueInTen(s[..|s| - 1]);
    }
  }

  /** A number printed in decimal is read back. */
  lemma DecimalReadsBack(n: nat, maximum: nat)
    requires n <= maximum
    ensures Unsigned(Decimal(n), maximum) == Some(n)
  {
    var s := Decimal(n);
    DecimalLeads(n);
    ValueOfDecimal(n);
    ValueInTen(s);
    if n == 0 {
      assert s == "0";
      assert ValueIn(8, s) == ValueIn(8, s[..0]) * 8 + HexValue(s[0]);
    }
    assert |s| > 2 && (s[1] == 'x' || s[1] == 'X') ==> !IsDigit(s[1]);
  }

  // ---------------------------------------------------------------- one key line

  datatype Key = KType | KPath | KEnabled | KBaudrate | KAddress | KOffset | KDirection | KBias | KInitial | KLedName

  function KeyOf(s: string): Option<Key> {
    if s == "type" then Some(KType)
    else if s == "path" then Some(KPath)
    else if s == "enabled" then Some(KEnabled)
    else if s == "baudrate" then Some(KBaudrate)
    else if s == "address" then Some(KAddress)
    else if s == "offset" then Some(KOffset)
    else if s == "direction" then Some(KDirection)
    else if s == "bias" then Some(KBias)
    else if s == "initial_value" then Some(KInitial)
    else if s == "led_name" then Some(KLedName)
    else None
  }

  function KindOf(s: string): Option<Kind> {
    if s == "uart" then Some(Uart)
    else if s == "i2c" then Some(I2c)
    else if s == "oled" then Some(Oled)
    else if s == "gpio" then Some(Gpio)
    else if s == "led" then Some(Led)
    else None
  }

  function BiasOf(s: string): Option<int> {
    if s == "default" then Some(0)
    else if s == "pull_up" then Some(1)
    else if s == "pull_down" then Some(2)
    else if s == "disabled" then Some(3)
    else None
  }

  function Copied(s: string, size: nat): Option<string> {
    if s == "" || |s| >= size then None else Some(s)
  }

  /** The field of one key, or None when the value does not do for it. */
  function Assigned(c: Config, key: Key, value: string): Option<Config> {
    match key
    case KType => (match KindOf(value) case Some(k) => Some(c.(kind := k)) case None => None)
    case KPath => (match Copied(value, PATH_SIZE) case Some(s) => Some(c.(path := s)) case None => None)
    case KLedName => (match Copied(value, NAME_SIZE) case Some(s) => Some(c.(ledName := s)) case None => None)
    case KEnabled => (match Unsigned(value, 1) case Some(n) => Some(c.(enabled := n)) case None => None)
    case KInitial => (match Unsigned(value, 1) case Some(n) => Some(c.(initialValue := n)) case None => None)
    case KBaudrate => (match Unsigned(value, INT_MAX) case Some(n) => Some(c.(baudrate := n)) case None => None)
    case KAddress => (match Unsigned(value, UINT32_MAX) case Some(n) => Some(c.(address := n)) case None => None)
    case KOffset => (match Unsigned(value, UINT32_MAX) case Some(n) => Some(c.(offset := n)) case None => None)
    case KDirection =>
      if value == "input" then Some(c.(gpioOutput := 0))
      else if value == "output" then Some(c.(gpioOutput := 1))
      else None
    case KBias => (match BiasOf(value) case Some(b) => Some(c.(bias := b)) case None => None)
  }

  /** The section being read: its configuration and the keys seen. */
  datatype Section = Section(config: Config, fields: set<Key>)

  /** `config_field`. */
  function Field(s: Section, key: string, value: string): Option<Section> {
    match KeyOf(key)
    case None => None
    case Some(k) =>
      if k in s.fields || value == "" then None
      else
        match Assigned(s.config, k, value)
        case None => None
        case Some(c) => Some(Section(c, s.fields + {k}))
  }

  function Required(kind: Kind): set<Key> {
    match kind
    case Uart => {KType, KPath}
    case I2c => {KType, KPath, KAddress}
    case Oled => {KType, KPath, KAddress}
    case Gpio => {KType, KPath, KOffset}
    case Led => {KType, KLedName}
  }

  function Allowed(kind: Kind, output: bool): set<Key> {
    {KType, KEnabled} +
    match kind
    case Uart => {KPath, KBaudrate}
    case I2c => {KPath, KAddress}
    case Oled => {KPath, KAddress}
    case Gpio => {KPath, KOffset, KDirection} + if output then {KInitial} else {KBias}
    case Led => {KLedName}
  }

  /** `config_section_validate`. */
  predicate SectionValid(s: Section) {
    && Required(s.config.kind) <= s.fields <= Allowed(s.config.kind, s.config.gpioOutput != 0)
    && ConfigValid(s.config)
  }

  // ---------------------------------------------------------------- lines

  /** The sections read so far; the last one is still open and `fields` are its keys. */
  datatype State = State(done: seq<Config>, fields: set<Key>)

  function Last(done: seq<Config>): Config
    requires done != []
  {
    done[|done| - 1]
  }

  datatype Stepped = Ok(state: State) | Bad(e: Errno)

  function Open(st: State): Section
    requires st.done != []
  {
    Section(Last(st.done), st.fields)
  }

  function IndexOf(s: string, c: char): (i: nat)
    ensures i <= |s|
    ensures i < |s| ==> s[i] == c
    ensures forall k :: 0 <= k < i ==> s[k] != c
  {
    if s == "" || s[0] == c then 0
    else
      var i := IndexOf(s[1..], c);
      assert forall k :: 0 < k <= i ==> s[k] == s[1..][k - 1];
      1 + i
  }

  function SectionLine(st: State, text: string): Stepped
    requires text != "" && text[0] == '['
  {
    if |text| < 3 || text[|text| - 1] != ']' || (st.done != [] && !SectionValid(Open(st))) then Bad(EINVAL)
    else
      var name := text[1..|text| - 1];
      if !NameValid(name) || |name| >= NAME_SIZE then Bad(EINVAL)
      else if exists i :: 0 <= i < |st.done| && st.done[i].name == name then Bad(EEXIST)
      else if |st.done| == MAX_COUNT then Bad(ENOSPC)
      else Ok(State(st.done + [Fresh(name)], {}))
  }

  function KeyLine(st: State, text: string): Stepped {
    var i := IndexOf(text, '=');
    if st.done == [] || i == |text| then Bad(EINVAL)
    else
      match Field(Open(st), Trim(text[..i]), Trim(text[i + 1..]))
      case None => Bad(EINVAL)
      case Some(s) => Ok(State(st.done[|st.done| - 1 := s.config], s.fields))
  }

  predicate Ignored(text: string) {
    text == "" || text[0] == '#' || text[0] == ';'
  }

  /** One line of the file, as `config_read_line` and the loop of `device_config_load` treat it. */
  function Line(st: State, raw: string): Stepped {
    if |raw| >= LINE_SIZE || '\0' in raw then Bad(EINVAL)
    else
      var text := Trim(raw);
      if Ignored(text) then Ok(st)
      else if text[0] == '[' then SectionLine(st, text)
      else KeyLine(st, text)
  }

  datatype LoadResult = Loaded(list: seq<Config>) | Failed(e: Errno)

  function Finish(st: State): LoadResult {
    if st.done != [] && !SectionValid(Open(st)) then Failed(EINVAL) else Loaded(st.done)
  }

  function LoadFrom(st: State, lines: seq<string>): LoadResult
    decreases |lines|
  {
    if lines == [] then Finish(st)
    else
      match Line(st, lines[0])
      case Bad(e) => Failed(e)
      case Ok(st') => LoadFrom(st', lines[1..])
  }

  const EMPTY := State([], {})

  /** The lines of a file; a last line without newline counts unless it is empty. */
  function Split(file: string): seq<string>
    decreases |file|
  {
    if file == "" then []
    else
      var i := IndexOf(file, '\n');
      if i == |file| then [file] else [file[..i]] + Split(file[i + 1..])
  }

  /** What `device_config_load` makes of a readable file. */
  function Load(file: string): LoadResult {
    LoadFrom(EMPTY, Split(file))
  }
}

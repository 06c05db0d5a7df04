/** Reading the device configuration file: the loops of src/device_config.c. */
module DeviceConfigLoad {
  import opened Options
  import opened CType
  import opened Errno
  import opened DeviceConfig

  lemma FrontStep(s: string, lo: nat)
    requires lo < |s|
    ensures DropFront(s[lo..]) == if IsSpace(s[lo]) then DropFront(s[lo + 1..]) else s[lo..]
  {
  }

  lemma BackStep(s: string, hi: nat)
    requires 0 < hi <= |s|
    ensures DropBack(s[..hi]) == if IsSpace(s[hi - 1]) then DropBack(s[..hi - 1]) else s[..hi]
  {
    assert s[..hi][..hi - 1] == s[..hi - 1];
  }

  method SkipFront(s: string) returns (r: string)
    ensures r == DropFront(s)
  {
    hide IsSpace, DropFront;
    var lo := 0;
    assert s[0..] == s;
    while lo < |s| && IsSpace(s[lo])
      invariant lo <= |s| && DropFront(s[lo..]) == DropFront(s)
    {
      FrontStep(s, lo);
      lo := lo + 1;
    }
    r := s[lo..];
    if lo < |s| {
      FrontStep(s, lo);
    }
  }

  method CutBack(s: string) returns (r: string)
    ensures r == DropBack(s)
  {
    hide IsSpace, DropBack;
    var length := |s|;
    assert s[..length] == s;
    while length > 0 && IsSpace(s[length - 1])
      invariant length <= |s| && DropBack(s[..length]) == DropBack(s)
    {
      BackStep(s, length);
      length := length - 1;
    }
    r := s[..length];
    if length > 0 {
      BackStep(s, length);
    }
  }

  /** `config_trim`. */
  method TrimText(s: string) returns (r: string)
    ensures r == Trim(s)
  {
    hide DropFront, DropBack;
    r := SkipFront(s);
    r := CutBack(r);
  }

  /** A file being read: the bytes that can be read before the end, and whether the end is
      a read error. */
  datatype Source = Source(rest: string, failed: bool)

  datatype LineRead = Read(text: string) | End | Refused(e: Errno)

  predicate TooLong(text: string) {
    |text| >= LINE_SIZE || '\0' in text
  }

  function FirstLine(s: Source): string {
    s.rest[..IndexOf(s.rest, '\n')]
  }

  function AfterLine(s: Source): (next: Source)
    ensures next.failed == s.failed && (s.rest != "" ==> |next.rest| < |s.rest|)
  {
    var i := IndexOf(s.rest, '\n');
    s.(rest := if i == |s.rest| then "" else s.rest[i + 1..])
  }

  predicate AtLastLine(s: Source) {
    IndexOf(s.rest, '\n') == |s.rest|
  }

  function ReadOf(s: Source): (r: LineRead)
    ensures r.Read? ==> s.rest != ""
  {
    if TooLong(FirstLine(s)) then Refused(EINVAL)
    else if AtLastLine(s) && s.failed then Refused(EIO)
    else if AtLastLine(s) && s.rest == "" then End
    else Read(FirstLine(s))
  }

  lemma IndexOfIs(s: string, c: char, i: nat)
    requires i <= |s| && (forall k :: 0 <= k < i ==> s[k] != c) && (i < |s| ==> s[i] == c)
    ensures IndexOf(s, c) == i
  {
  }

  predicate Short(line: string) {
    |line| <= 511 && '\0' !in line
  }

  /** The next line is what stands before the next newline. */
  lemma NextLineExactly(s: Source, line: string, rest: string)
    requires s.rest == line + "\n" + rest && '\n' !in line
    ensures ReadOf(s) == (if Short(line) then Read(line) else Refused(EINVAL)) && AfterLine(s) == s.(rest := rest)
  {
    hide IndexOf;
    IndexOfIs(s.rest, '\n', |line|);
    assert s.rest[..|line|] == line && s.rest[|line| + 1..] == rest;
  }

  /** Without one it is all that is left, unless reading fails there. */
  lemma LastLineExactly(s: Source)
    requires '\n' !in s.rest
    ensures ReadOf(s) ==
      if !Short(s.rest) then Refused(EINVAL)
      else if s.failed then Refused(EIO)
      else if s.rest == "" then End
      else Read(s.rest)
  {
    hide IndexOf;
    assert s.rest[..|s.rest|] == s.rest;
  }

  /** `config_read_line`. */
  method ReadLine(s: Source) returns (r: LineRead, next: Source)
    ensures r == ReadOf(s)
    ensures r.Read? ==> next == AfterLine(s)
  {
    hide IndexOf;
    var line, i := "", 0;
    while i < |s.rest| && s.rest[i] != '\n'
      invariant i <= |s.rest| && line == s.rest[..i] && !TooLong(line)
      invariant forall k :: 0 <= k < i ==> s.rest[k] != '\n'
    {
      if s.rest[i] == '\0' || |line| + 1 >= LINE_SIZE {
        ghost var first := FirstLine(s);
        assert i < |first| && first[i] == s.rest[i];
        return Refused(EINVAL), s;
      }
      line := line + [s.rest[i]];
      i := i + 1;
    }
    IndexOfIs(s.rest, '\n', i);
    if i == |s.rest| && s.failed {
      return Refused(EIO), s;
    }
    next := s.(rest := if i < |s.rest| then s.rest[i + 1..] else "");
    r := if i == |s.rest| && line == "" then End else Read(line);
  }

  /** What the whole loop makes of a file, read errors included. */
  function LoadStream(st: State, s: Source): LoadResult
    decreases |s.rest|
  {
    match ReadOf(s)
    case Refused(e) => Failed(e)
    case End => Finish(st)
    case Read(text) =>
      match Line(st, text)
      case Bad(e) => Failed(e)
      case Ok(next) => LoadStream(next, AfterLine(s))
  }

  lemma SplitFirst(file: string, failed: bool)
    requires file != ""
    ensures Split(file) == [FirstLine(Source(file, failed))] + Split(AfterLine(Source(file, failed)).rest)
  {
    hide IndexOf;
    var i := IndexOf(file, '\n');
    if i == |file| {
      assert file[..i] == file;
      assert Split("") == [];
    }
  }

  lemma LoadFirst(st: State, line: string, rest: seq<string>)
    ensures var r := Line(st, line);
      LoadFrom(st, [line] + rest) == if r.Bad? then Failed(r.e) else LoadFrom(r.state, rest)
  {
    hide Line;
    assert ([line] + rest)[1..] == rest;
  }

  /** Without a read error the loop sees exactly the lines of the file. */
  lemma {:induction false} StreamIsLoad(st: State, file: string)
    ensures LoadStream(st, Source(file, false)) == LoadFrom(st, Split(file))
    decreases |file|
  {
    hide Line, Split, FirstLine, AfterLine, TooLong, Finish;
    var s := Source(file, false);
    if file == "" {
      EmptySource(s);
    } else {
      var text := FirstLine(s);
      TooLongIsBad(st, text);
      SplitFirst(file, false);
      LoadFirst(st, text, Split(AfterLine(s).rest));
      match Line(st, text)
      case Bad(_) =>
      case Ok(next) => StreamIsLoad(next, AfterLine(s).rest);
    }
  }

  lemma EmptySource(s: Source)
    requires s == Source("", false)
    ensures ReadOf(s) == End && Split("") == []
  {
  }

  lemma TooLongIsBad(st: State, text: string)
    ensures TooLong(text) ==> Line(st, text) == Bad(EINVAL)
  {
  }

  /** A read error is never taken for the end of the file. */
  lemma {:induction false} ReadErrorFails(st: State, s: Source)
    requires s.failed
    ensures LoadStream(st, s).Failed?
    decreases |s.rest|
  {
    hide Line;
    if ReadOf(s).Read? {
      match Line(st, ReadOf(s).text)
      case Bad(_) =>
      case Ok(next) => ReadErrorFails(next, AfterLine(s));
    }
  }

  /** The header branch of the loop, with the search for a device of the same name. */
  method EnterSection(temporary: seq<Config>, fields: set<Key>, text: string) returns (r: Stepped)
    requires text != "" && text[0] == '['
    ensures r == SectionLine(State(temporary, fields), text)
  {
    hide SectionValid;
    if |text| < 3 || text[|text| - 1] != ']' ||
       (|temporary| > 0 && !SectionValid(Section(temporary[|temporary| - 1], fields))) {
      return Bad(EINVAL);
    }
    var name := text[1..|text| - 1];
    if !NameValid(name) || |name| >= NAME_SIZE {
      return Bad(EINVAL);
    }
    for i := 0 to |temporary|
      invariant forall k :: 0 <= k < i ==> temporary[k].name != name
    {
      if temporary[i].name == name {
        return Bad(EEXIST);
      }
    }
    if |temporary| == MAX_COUNT {
      return Bad(ENOSPC);
    }
    r := Ok(State(temporary + [Fresh(name)], {}));
  }

  /** The key branch of the loop. */
  method EnterField(temporary: seq<Config>, fields: set<Key>, text: string) returns (r: Stepped)
    ensures r == KeyLine(State(temporary, fields), text)
  {
    hide Field, Trim, IndexOf;
    var equals := IndexOf(text, '=');
    if |temporary| == 0 || equals == |text| {
      return Bad(EINVAL);
    }
    var key := TrimText(text[..equals]);
    var value := TrimText(text[equals + 1..]);
    match Field(Section(temporary[|temporary| - 1], fields), key, value)
    case None => r := Bad(EINVAL);
    case Some(s) => r := Ok(State(temporary[|temporary| - 1 := s.config], s.fields));
  }

  /** The outside world of one load: whether the file opens and closes, and its bytes. */
  datatype File = File(openError: Option<Errno>, source: Source, closeError: Option<Errno>)

  predicate Succeeds(filename: string, file: File) {
    && filename != "" && file.openError == None && file.closeError == None
    && !file.source.failed && Load(file.source.rest).Loaded?
  }

  /** The error of a load, first cause first. */
  function Failure(filename: string, file: File): Option<Errno> {
    if filename == "" then Some(EINVAL)
    else if file.openError.Some? then file.openError
    else
      match LoadStream(EMPTY, file.source)
      case Failed(e) => Some(e)
      case Loaded(_) => file.closeError
  }

  /** `DeviceConfigList`. */
  class ConfigList {
    var devices: seq<Config>

    constructor ()
      ensures devices == []
    {
      devices := [];
    }

    /** `device_config_load`: the list is replaced by the whole file or left as it was. */
    method LoadFile(filename: string, file: File) returns (error: Option<Errno>)
      modifies this
      ensures error == None <==> Succeeds(filename, file)
      ensures error == None ==> Load(file.source.rest) == Loaded(devices)
      ensures error != None ==> devices == old(devices)
      ensures error == Failure(filename, file)
    {
      hide Line, Finish, LoadFrom, Split, ReadOf, AfterLine;
      if filename == "" {
        return Some(EINVAL);
      }
      if file.openError.Some? {
        return file.openError;
      }
      var result := ReadAll(file.source);
      if file.source.failed {
        ReadErrorFails(EMPTY, file.source);
      } else {
        StreamIsLoad(EMPTY, file.source.rest);
        assert Source(file.source.rest, false) == file.source;
      }
      match result
      case Failed(e) => return Some(e);
      case Loaded(temporary) =>
        if file.closeError.Some? {
          return file.closeError;
        }
        devices := temporary;
        return None;
    }
  }

  /** The loop of `device_config_load`. */
  method ReadAll(source: Source) returns (result: LoadResult)
    ensures result == LoadStream(EMPTY, source)
  {
    hide SectionLine, KeyLine, Trim, Finish, ReadOf, Split, LoadFrom, AfterLine;
    var temporary: seq<Config>, fields: set<Key>, s := [], {}, source;
    var line, next := ReadLine(s);
    while line.Read?
      invariant line == ReadOf(s) && (line.Read? ==> next == AfterLine(s))
      invariant LoadStream(State(temporary, fields), s) == LoadStream(EMPTY, source)
      decreases |s.rest|
    {
      ReadIsShort(s);
      ghost var st := State(temporary, fields);
      var text := TrimText(line.text);
      if !Ignored(text) {
        var r: Stepped;
        if text[0] == '[' {
          r := EnterSection(temporary, fields, text);
        } else {
          r := EnterField(temporary, fields, text);
        }
        assert Line(st, line.text) == r;
        if r.Bad? {
          return Failed(r.e);
        }
        temporary, fields := r.state.done, r.state.fields;
      }
      s := next;
      line, next := ReadLine(s);
    }
    if line.Refused? {
      return Failed(line.e);
    }
    result := Finish(State(temporary, fields));
  }

  lemma ReadIsShort(s: Source)
    requires ReadOf(s).Read?
    ensures !TooLong(ReadOf(s).text)
  {
  }
}

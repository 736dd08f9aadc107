/** The stored capture configuration (crates/openfrag-setup/src/capture_config.rs).  Paths are
    arbitrary bytes and are written in hexadecimal.  The file is modelled as the text it decodes
    to; the file system's answers about a path are a function argument. */
module CaptureConfig {
  import opened Prelude

  const FORMAT_HEADER := "OPENFRAG_CAPTURE_V1"
  const REPLAY_SECONDS := "60"

  type Path = seq<Byte>

  datatype Recorder = Native(path: Path) | Flatpak

  datatype Config = Config(enabled: bool, recorder: Recorder, target: string, output: Path, ffprobe: Path)

  datatype Error = InvalidValue | InvalidPath | UnsafePath | InvalidFormat | Io

  /** What a path is asked to be. */
  datatype Kind = RealDirectory | ExecutableFile

  /** The complaint of the file system, if any. */
  type Files = (Kind, Path) -> Option<Error>

  // ----- Validation

  predicate IsAlphanumeric(c: char) {
    '0' <= c <= '9' || 'a' <= c <= 'z' || 'A' <= c <= 'Z'
  }

  predicate IsTargetChar(c: char) {
    IsAlphanumeric(c) || c == '_' || c == '-' || c == '.' || c == ':'
  }

  predicate ValidTarget(target: string) {
    && 0 < |target| <= 128
    && IsAlphanumeric(target[0])
    && forall i :: 0 < i < |target| ==> IsTargetChar(target[i])
  }

  /** The components between slashes. */
  function Components(path: Path): seq<Path> {
    if path == [] then [[]]
    else
      var rest := Components(path[1..]);
      if path[0] == 47 || rest == [] then [[]] + rest else [[path[0]] + rest[0]] + rest[1..]
  }

  predicate CleanPath(path: Path) {
    && path != [] && path[0] == 47
    && |path| <= 4096
    && [46, 46] !in Components(path)
    && forall i :: 0 <= i < |path| ==> 32 <= path[i] && path[i] != 127
  }

  function CheckPath(kind: Kind, path: Path, files: Files): Result<(), Error> {
    if !CleanPath(path) then Err(UnsafePath)
    else if files(kind, path).Some? then Err(files(kind, path).value)
    else Ok(())
  }

  function Validate(c: Config, files: Files): Result<(), Error> {
    if !ValidTarget(c.target) then Err(InvalidValue)
    else
      var _ :- CheckPath(RealDirectory, c.output, files);
      var _ :- CheckPath(ExecutableFile, c.ffprobe, files);
      if c.recorder.Flatpak? then Ok(()) else CheckPath(ExecutableFile, c.recorder.path, files)
  }

  // ----- Hexadecimal

  function HexDigit(d: int): char
    requires 0 <= d < 16
  {
    "0123456789abcdef"[d]
  }

  function EncodeOs(value: Path): string {
    if value == [] then [] else [HexDigit(value[0] / 16), HexDigit(value[0] % 16)] + EncodeOs(value[1..])
  }

  lemma EncodeNext(value: Path, i: nat)
    requires i < |value|
    ensures EncodeOs(value[i..]) == [HexDigit(value[i] / 16), HexDigit(value[i] % 16)] + EncodeOs(value[i + 1..])
  {
    assert value[i..][0] == value[i] && value[i..][1..] == value[i + 1..];
  }

  lemma EncodeNone()
    ensures EncodeOs([]) == []
  {
  }

  method EncodeOsString(value: Path) returns (encoded: string)
    ensures encoded == EncodeOs(value)
  {
    hide EncodeOs;
    hide HexDigit;
    encoded := "";
    assert value[0..] == value;
    EncodeNone();
    var i := 0;
    while i < |value|
      invariant 0 <= i <= |value|
      invariant encoded + EncodeOs(value[i..]) == EncodeOs(value)
    {
      EncodeNext(value, i);
      ghost var rest := EncodeOs(value[i + 1..]);
      var high, low := HexDigit(value[i] / 16), HexDigit(value[i] % 16);
      assert encoded + ([high, low] + rest) == encoded + [high] + [low] + rest;
      encoded := encoded + [HexDigit(value[i] / 16)];
      encoded := encoded + [HexDigit(value[i] % 16)];
      i := i + 1;
    }
    assert value[|value|..] == [] && encoded + [] == encoded;
  }

  function HexValue(c: char): (r: Option<int>)
    ensures r.Some? ==> 0 <= r.value < 16
  {
    if '0' <= c <= '9' then Some(c as int - '0' as int)
    else if 'a' <= c <= 'f' then Some(c as int - 'a' as int + 10)
    else if 'A' <= c <= 'F' then Some(c as int - 'A' as int + 10)
    else None
  }

  function DecodePath(value: string): Result<Path, Error> {
    if value == [] then Ok([])
    else if |value| == 1 then Err(InvalidFormat)
    else
      var high, low := HexValue(value[0]), HexValue(value[1]);
      if high.None? || low.None? then Err(InvalidFormat)
      else
        var rest :- DecodePath(value[2..]);
        Ok([16 * high.value + low.value] + rest)
  }

  // ----- Lines

  /** Rust's `str::lines`: a line ends at a newline, and a carriage return before it is dropped. */
  function Lines(text: string): seq<string> {
    LinesFrom([], text)
  }

  /** `line` is what has been read of the current line. */
  function LinesFrom(line: string, text: string): seq<string>
    decreases |text|
  {
    if text == [] then (if line == [] then [] else [line])
    else if text[0] == '\n' then [WithoutReturn(line)] + LinesFrom([], text[1..])
    else LinesFrom(line + [text[0]], text[1..])
  }

  function WithoutReturn(line: string): string {
    if line != [] && line[|line| - 1] == '\r' then line[..|line| - 1] else line
  }

  function Joined(lines: seq<string>): string {
    if lines == [] then [] else lines[0] + "\n" + Joined(lines[1..])
  }

  // ----- Encoding

  function EncodedLines(c: Config): seq<string> {
    [FORMAT_HEADER,
     "enabled=" + (if c.enabled then "true" else "false"),
     "recorder=" + (if c.recorder.Native? then "native" else "flatpak"),
     "recorder_path=" + (if c.recorder.Native? then EncodeOs(c.recorder.path) else ""),
     "capture_target=" + c.target,
     "output_directory=" + EncodeOs(c.output),
     "replay_seconds=" + REPLAY_SECONDS,
     "ffprobe_path=" + EncodeOs(c.ffprobe)]
  }

  function Encode(c: Config): string {
    Joined(EncodedLines(c))
  }

  // ----- Decoding

  function Field(line: string, name: string): Result<string, Error> {
    if name + "=" <= line then Ok(line[|name| + 1..]) else Err(InvalidFormat)
  }

  function FieldAt(lines: seq<string>, i: nat, name: string): Result<string, Error> {
    if i < |lines| then Field(lines[i], name) else Err(InvalidFormat)
  }

  function DecodeFlag(text: string): Result<bool, Error> {
    if text == "true" then Ok(true) else if text == "false" then Ok(false) else Err(InvalidFormat)
  }

  function DecodeRecorder(kind: string, path: string): Result<Recorder, Error> {
    if kind == "flatpak" && path == [] then Ok(Flatpak)
    else if kind == "native" && path != [] then
      var p :- DecodePath(path);
      Ok(Native(p))
    else Err(InvalidFormat)
  }

  function DecodeLines(lines: seq<string>): Result<Config, Error> {
    if lines == [] || lines[0] != FORMAT_HEADER then Err(InvalidFormat)
    else
      var enabledText :- FieldAt(lines, 1, "enabled");
      var enabled :- DecodeFlag(enabledText);
      var kind :- FieldAt(lines, 2, "recorder");
      var recorderPath :- FieldAt(lines, 3, "recorder_path");
      var target :- FieldAt(lines, 4, "capture_target");
      var outputText :- FieldAt(lines, 5, "output_directory");
      var output :- DecodePath(outputText);
      var seconds :- FieldAt(lines, 6, "replay_seconds");
      if seconds != REPLAY_SECONDS then Err(InvalidFormat)
      else
        var ffprobeText :- FieldAt(lines, 7, "ffprobe_path");
        var ffprobe :- DecodePath(ffprobeText);
        if |lines| > 8 then Err(InvalidFormat)
        else
          var recorder :- DecodeRecorder(kind, recorderPath);
          Ok(Config(enabled, recorder, target, output, ffprobe))
  }

  function Decode(text: string, files: Files): Result<Config, Error> {
    var c :- DecodeLines(Lines(text));
    var _ :- Validate(c, files);
    Ok(c)
  }

  /** The line iterator that `decode` advances. */
  class LineReader {
    var lines: seq<string>

    constructor (text: string)
      ensures lines == Lines(text)
    {
      lines := Lines(text);
    }

    method Next() returns (line: Option<string>)
      modifies this
      ensures line == if old(lines) == [] then None else Some(old(lines)[0])
      ensures lines == if old(lines) == [] then [] else old(lines)[1..]
    {
      if lines == [] {
        return None;
      }
      line := Some(lines[0]);
      lines := lines[1..];
    }

    method NextField(name: string) returns (value: Result<string, Error>)
      modifies this
      ensures value == FieldAt(old(lines), 0, name)
      ensures lines == if old(lines) == [] then [] else old(lines)[1..]
    {
      var line := Next();
      if line.None? {
        return Err(InvalidFormat);
      }
      return Field(line.value, name);
    }
  }

  method ReadConfiguration(text: string, files: Files) returns (r: Result<Config, Error>)
    ensures r == Decode(text, files)
  {
    hide Lines;
    hide Field;
    hide DecodePath;
    hide Validate;
    var reader := new LineReader(text);
    ghost var all := reader.lines;
    var header := reader.Next();
    if header != Some(FORMAT_HEADER) {
      return Err(InvalidFormat);
    }
    assert reader.lines == all[1..];
    var enabledText := reader.NextField("enabled");
    if enabledText.Err? { return Err(enabledText.error); }
    assert reader.lines == all[2..];
    var enabled := DecodeFlag(enabledText.value);
    if enabled.Err? { return Err(enabled.error); }
    var kind := reader.NextField("recorder");
    if kind.Err? { return Err(kind.error); }
    assert reader.lines == all[3..];
    var recorderPath := reader.NextField("recorder_path");
    if recorderPath.Err? { return Err(recorderPath.error); }
    assert reader.lines == all[4..];
    var target := reader.NextField("capture_target");
    if target.Err? { return Err(target.error); }
    assert reader.lines == all[5..];
    var outputText := reader.NextField("output_directory");
    if outputText.Err? { return Err(outputText.error); }
    assert reader.lines == all[6..];
    var output := DecodePath(outputText.value);
    if output.Err? { return Err(output.error); }
    var seconds := reader.NextField("replay_seconds");
    if seconds.Err? { return Err(seconds.error); }
    assert reader.lines == all[7..];
    if seconds.value != REPLAY_SECONDS { return Err(InvalidFormat); }
    var ffprobeText := reader.NextField("ffprobe_path");
    if ffprobeText.Err? { return Err(ffprobeText.error); }
    assert reader.lines == all[8..];
    var ffprobe := DecodePath(ffprobeText.value);
    if ffprobe.Err? { return Err(ffprobe.error); }
    var more := reader.Next();
    if more.Some? { return Err(InvalidFormat); }
    var recorder := DecodeRecorder(kind.value, recorderPath.value);
    if recorder.Err? { return Err(recorder.error); }
    var c := Config(enabled.value, recorder.value, target.value, output.value, ffprobe.value);
    var valid := Validate(c, files);
    if valid.Err? { return Err(valid.error); }
    return Ok(c);
  }

  // ----- Hexadecimal both ways

  function LowerHex(c: char): char {
    if 'A' <= c <= 'F' then (c as int + 32) as char else c
  }

  function LowerAll(s: string): string {
    if s == [] then [] else [LowerHex(s[0])] + LowerAll(s[1..])
  }

  /** A text decodes to a path exactly when it is the path's encoding up to the case of its digits. */
  lemma {:induction false} DecodesIffEncodes(text: string, path: Path)
    ensures DecodePath(text) == Ok(path) <==> LowerAll(text) == EncodeOs(path)
    decreases |text|
  {
    if text == [] {
    } else if |text| == 1 {
      assert LowerAll(text[1..]) == [];
    } else if path == [] {
      LowerPair(text);
    } else {
      hide DecodePath;
      hide EncodeOs;
      hide LowerAll;
      hide LowerHex;
      hide HexValue;
      hide HexDigit;
      DecodesIffEncodes(text[2..], path[1..]);
      PairDecodes(text, path);
      ByteDecodes(text[0], text[1], path[0]);
      LowerPair(text);
      assert path[0..] == path;
      EncodeNext(path, 0);
      PairsEqual(LowerHex(text[0]), LowerHex(text[1]), LowerAll(text[2..]),
                 HexDigit(path[0] / 16), HexDigit(path[0] % 16), EncodeOs(path[1..]));
    }
  }

  lemma {:induction false} PairDecodes(text: string, path: Path)
    requires |text| >= 2 && path != []
    ensures DecodePath(text) == Ok(path) <==>
            HexValue(text[0]).Some? && HexValue(text[1]).Some?
            && 16 * HexValue(text[0]).value + HexValue(text[1]).value == path[0]
            && DecodePath(text[2..]) == Ok(path[1..])
  {
    var high, low, rest := HexValue(text[0]), HexValue(text[1]), DecodePath(text[2..]);
    hide HexValue;
    if high.Some? && low.Some? && rest.Ok? {
      assert DecodePath(text) == Ok([16 * high.value + low.value] + rest.value);
      hide DecodePath;
      ConsEqual(16 * high.value + low.value, rest.value, path);
    }
  }

  lemma ConsEqual(byte: Byte, rest: Path, path: Path)
    requires path != []
    ensures [byte] + rest == path <==> byte == path[0] && rest == path[1..]
  {
    var joined := [byte] + rest;
    assert joined[0] == byte && joined[1..] == rest;
    assert path == [path[0]] + path[1..];
  }

  lemma {:induction false} LowerPair(text: string)
    requires |text| >= 2
    ensures LowerAll(text) == [LowerHex(text[0]), LowerHex(text[1])] + LowerAll(text[2..])
  {
    assert text[1..][1..] == text[2..];
  }

  lemma PairsEqual(a: char, b: char, s: string, c: char, d: char, t: string)
    ensures [a, b] + s == [c, d] + t <==> a == c && b == d && s == t
  {
    var left, right := [a, b] + s, [c, d] + t;
    assert left[2..] == s && right[2..] == t;
    assert left[0] == a && left[1] == b && right[0] == c && right[1] == d;
  }

  lemma ByteDecodes(a: char, b: char, byte: Byte)
    ensures HexValue(a).Some? && HexValue(b).Some? && 16 * HexValue(a).value + HexValue(b).value == byte <==>
            LowerHex(a) == HexDigit(byte / 16) && LowerHex(b) == HexDigit(byte % 16)
  {
    hide HexValue;
    hide LowerHex;
    hide HexDigit;
    DigitDecodes(a, byte / 16);
    DigitDecodes(b, byte % 16);
    if HexValue(a).Some? && HexValue(b).Some? {
      Nibbles(HexValue(a).value, HexValue(b).value, byte);
    }
  }

  lemma Nibbles(high: int, low: int, byte: Byte)
    requires 0 <= high < 16 && 0 <= low < 16
    ensures 16 * high + low == byte <==> high == byte / 16 && low == byte % 16
  {
  }

  lemma DigitDecodes(c: char, d: int)
    requires 0 <= d < 16
    ensures HexValue(c) == Some(d) <==> LowerHex(c) == HexDigit(d)
  {
  }

  lemma {:induction false} EncodingIsLower(path: Path)
    ensures LowerAll(EncodeOs(path)) == EncodeOs(path)
    ensures forall i :: 0 <= i < |EncodeOs(path)| ==> HexValue(EncodeOs(path)[i]).Some?
  {
    if path != [] {
      EncodingIsLower(path[1..]);
      var encoded := EncodeOs(path);
      assert encoded[1..][1..] == EncodeOs(path[1..]);
    }
  }

  // ----- Lines both ways

  predicate CleanLine(line: string) {
    forall i :: 0 <= i < |line| ==> line[i] != '\n' && line[i] != '\r' && line[i] < 128 as char
  }

  lemma {:induction false} LinesFromLine(read: string, line: string, rest: string)
    requires forall i :: 0 <= i < |line| ==> line[i] != '\n'
    ensures LinesFrom(read, line + "\n" + rest) == [WithoutReturn(read + line)] + LinesFrom([], rest)
    decreases |line|
  {
    var text := line + "\n" + rest;
    if line == [] {
      assert text[1..] == rest && read + line == read;
    } else {
      assert text[0] == line[0] && text[1..] == line[1..] + "\n" + rest;
      LinesFromLine(read + [line[0]], line[1..], rest);
      assert read + [line[0]] + line[1..] == read + line;
    }
  }

  lemma {:induction false} LinesOfJoined(lines: seq<string>)
    requires forall i :: 0 <= i < |lines| ==> CleanLine(lines[i])
    ensures Lines(Joined(lines)) == lines
  {
    hide CleanLine;
    hide LinesFrom;
    if lines == [] {
      NoLines();
    } else {
      LinesOfJoined(lines[1..]);
      CleanEnd(lines[0]);
      LinesFromLine([], lines[0], Joined(lines[1..]));
      assert [] + lines[0] == lines[0];
    }
  }

  lemma NoLines()
    ensures LinesFrom([], []) == []
  {
  }

  lemma CleanEnd(line: string)
    requires CleanLine(line)
    ensures WithoutReturn(line) == line
    ensures forall i :: 0 <= i < |line| ==> line[i] != '\n'
  {
  }

  lemma {:induction false} HexIsClean(path: Path)
    ensures CleanLine(EncodeOs(path))
  {
    if path != [] {
      HexIsClean(path[1..]);
      DigitIsClean(path[0] / 16);
      DigitIsClean(path[0] % 16);
    }
  }

  lemma DigitIsClean(d: int)
    requires 0 <= d < 16
    ensures HexDigit(d) != '\n' && HexDigit(d) != '\r' && HexDigit(d) < 128 as char
  {
  }

  lemma TargetIsClean(target: string)
    requires ValidTarget(target)
    ensures CleanLine(target)
  {
    forall i | 0 <= i < |target| ensures target[i] != '\n' && target[i] != '\r' && target[i] < 128 as char {
      assert IsTargetChar(target[i]);
    }
  }

  lemma CleanConcat(a: string, b: string)
    requires CleanLine(a) && CleanLine(b)
    ensures CleanLine(a + b)
  {
  }

  lemma FixedLinesAreClean()
    ensures CleanLine(FORMAT_HEADER) && CleanLine("enabled=" + "true") && CleanLine("enabled=" + "false")
    ensures CleanLine("replay_seconds=" + REPLAY_SECONDS)
  {
  }

  lemma RecorderLinesAreClean()
    ensures CleanLine("recorder=" + "native") && CleanLine("recorder=" + "flatpak") && CleanLine("recorder_path=" + "")
  {
  }

  lemma KeysAreClean()
    ensures CleanLine("recorder_path=") && CleanLine("capture_target=") && CleanLine("output_directory=")
    ensures CleanLine("ffprobe_path=")
  {
  }

  lemma EncodedLinesAreClean(c: Config)
    requires ValidTarget(c.target)
    ensures forall i :: 0 <= i < 8 ==> CleanLine(EncodedLines(c)[i])
  {
    hide EncodeOs;
    hide CleanLine;
    FixedLinesAreClean();
    RecorderLinesAreClean();
    KeysAreClean();
    TargetIsClean(c.target);
    HexIsClean(c.output);
    HexIsClean(c.ffprobe);
    CleanConcat("capture_target=", c.target);
    CleanConcat("output_directory=", EncodeOs(c.output));
    CleanConcat("ffprobe_path=", EncodeOs(c.ffprobe));
    if c.recorder.Native? {
      HexIsClean(c.recorder.path);
      CleanConcat("recorder_path=", EncodeOs(c.recorder.path));
    }
  }

  // ----- Exactly what decodes

  /** The line is the named field with this value. */
  ghost predicate Spells(line: string, name: string, value: string) {
    line == name + "=" + value
  }

  /** The line is the named field with the path in hexadecimal digits of either case. */
  ghost predicate SpellsPath(line: string, name: string, path: Path) {
    name + "=" <= line && LowerAll(line[|name| + 1..]) == EncodeOs(path)
  }

  ghost predicate SpelledAs(lines: seq<string>, c: Config) {
    && |lines| == 8
    && lines[0] == FORMAT_HEADER
    && Spells(lines[1], "enabled", if c.enabled then "true" else "false")
    && Spells(lines[2], "recorder", if c.recorder.Native? then "native" else "flatpak")
    && (if c.recorder.Native? then SpellsPath(lines[3], "recorder_path", c.recorder.path)
        else Spells(lines[3], "recorder_path", ""))
    && Spells(lines[4], "capture_target", c.target)
    && SpellsPath(lines[5], "output_directory", c.output)
    && Spells(lines[6], "replay_seconds", REPLAY_SECONDS)
    && SpellsPath(lines[7], "ffprobe_path", c.ffprobe)
  }

  lemma FieldSpells(line: string, name: string, value: string)
    ensures Field(line, name) == Ok(value) <==> Spells(line, name, value)
  {
    var key := name + "=";
    if key <= line {
      assert line == line[..|key|] + line[|key|..];
      assert line[..|key|] == key;
    }
  }

  lemma FieldSpellsPath(line: string, name: string, path: Path)
    ensures Field(line, name).Ok? && DecodePath(Field(line, name).value) == Ok(path) <==> SpellsPath(line, name, path)
  {
    if name + "=" <= line {
      DecodesIffEncodes(line[|name| + 1..], path);
    }
  }

  lemma RecorderSpells(kindLine: string, pathLine: string, recorder: Recorder)
    requires recorder.Native? ==> recorder.path != []
    ensures var kind, path := Field(kindLine, "recorder"), Field(pathLine, "recorder_path");
      kind.Ok? && path.Ok? && DecodeRecorder(kind.value, path.value) == Ok(recorder) <==>
      Spells(kindLine, "recorder", if recorder.Native? then "native" else "flatpak")
      && (if recorder.Native? then SpellsPath(pathLine, "recorder_path", recorder.path)
          else Spells(pathLine, "recorder_path", ""))
  {
    hide Field;
    hide Spells;
    hide SpellsPath;
    FieldSpells(kindLine, "recorder", "native");
    FieldSpells(kindLine, "recorder", "flatpak");
    FieldSpells(pathLine, "recorder_path", "");
    if recorder.Native? {
      FieldSpellsPath(pathLine, "recorder_path", recorder.path);
    }
  }

  lemma FlagSpells(line: string, flag: bool)
    ensures Field(line, "enabled").Ok? && DecodeFlag(Field(line, "enabled").value) == Ok(flag) <==>
            Spells(line, "enabled", if flag then "true" else "false")
  {
    hide Field;
    hide Spells;
    FieldSpells(line, "enabled", "true");
    FieldSpells(line, "enabled", "false");
  }

  lemma LinesDecode(lines: seq<string>, c: Config)
    requires c.recorder.Native? ==> c.recorder.path != []
    ensures DecodeLines(lines) == Ok(c) <==> SpelledAs(lines, c)
  {
    hide Field;
    hide Spells;
    hide SpellsPath;
    hide DecodePath;
    hide DecodeFlag;
    hide DecodeRecorder;
    if |lines| >= 8 {
      FlagSpells(lines[1], c.enabled);
      RecorderSpells(lines[2], lines[3], c.recorder);
      FieldSpells(lines[4], "capture_target", c.target);
      FieldSpellsPath(lines[5], "output_directory", c.output);
      FieldSpells(lines[6], "replay_seconds", REPLAY_SECONDS);
      FieldSpellsPath(lines[7], "ffprobe_path", c.ffprobe);
    }
  }

  /** A text decodes to a configuration exactly when the configuration is valid and the eight lines
      spell it, up to the case of hexadecimal digits and the kind of line endings. */
  lemma DecodesIffSpelled(text: string, files: Files, c: Config)
    ensures Decode(text, files) == Ok(c) <==> Validate(c, files).Ok? && SpelledAs(Lines(text), c)
  {
    hide SpelledAs;
    hide DecodeLines;
    hide Lines;
    if c.recorder.Native? && c.recorder.path == [] {
      assert !CleanPath(c.recorder.path);
    } else {
      LinesDecode(Lines(text), c);
    }
  }

  lemma EncodedIsSpelled(c: Config)
    ensures SpelledAs(EncodedLines(c), c)
  {
    hide EncodeOs;
    EncodingIsLower(c.output);
    EncodingIsLower(c.ffprobe);
    PathLine("output_directory", c.output);
    PathLine("ffprobe_path", c.ffprobe);
    if c.recorder.Native? {
      PathLine("recorder_path", c.recorder.path);
    }
  }

  lemma {:induction false} PathLine(name: string, path: Path)
    ensures SpellsPath(name + "=" + EncodeOs(path), name, path)
  {
    EncodingIsLower(path);
    var line := name + "=" + EncodeOs(path);
    assert line[|name| + 1..] == EncodeOs(path);
  }

  /** What a valid configuration is written as is ASCII and reads back as the same configuration. */
  lemma RoundTrip(c: Config, files: Files)
    requires Validate(c, files).Ok?
    ensures Decode(Encode(c), files) == Ok(c)
    ensures Lines(Encode(c)) == EncodedLines(c)
    ensures forall i :: 0 <= i < |Encode(c)| ==> Encode(c)[i] < 128 as char
  {
    hide Lines;
    hide SpelledAs;
    hide Joined;
    EncodedLinesAreClean(c);
    var lines := EncodedLines(c);
    hide EncodedLines;
    LinesOfJoined(lines);
    EncodedIsSpelled(c);
    DecodesIffSpelled(Encode(c), files, c);
    JoinedIsAscii(lines);
  }

  lemma {:induction false} JoinedIsAscii(lines: seq<string>)
    requires forall i :: 0 <= i < |lines| ==> CleanLine(lines[i])
    ensures forall i :: 0 <= i < |Joined(lines)| ==> Joined(lines)[i] < 128 as char
  {
    if lines != [] {
      assert forall i :: 0 <= i < |lines[1..]| ==> lines[1..][i] == lines[i + 1];
      JoinedIsAscii(lines[1..]);
      assert CleanLine(lines[0]);
    }
  }

  // ----- What is valid, field by field

  ghost predicate LetterOrDigit(c: char) {
    var n := c as int;
    48 <= n <= 57 || 65 <= n <= 90 || 97 <= n <= 122
  }

  /** One to 128 letters, digits and, after the first, also `_`, `-`, `.` and `:`. */
  ghost predicate NamesTarget(target: string) {
    && 1 <= |target| <= 128 && LetterOrDigit(target[0])
    && forall i :: 1 <= i < |target| ==> LetterOrDigit(target[i]) || target[i] in {'_', '-', '.', ':'}
  }

  /** The component `c` stands at this place of the path, between slashes or at an end. */
  ghost predicate PieceAt(path: Path, c: Path, i: nat) {
    && i + |c| <= |path| && path[i..i + |c|] == c
    && (i == 0 || path[i - 1] == 47) && (i + |c| == |path| || path[i + |c|] == 47)
  }

  /** Absolute, at most 4096 bytes, none of them a control character, and no component `..`. */
  ghost predicate IsClean(path: Path) {
    && 1 <= |path| <= 4096 && path[0] == 47
    && (forall i :: 0 <= i < |path| ==> path[i] > 31 && path[i] != 127)
    && forall i: nat :: !PieceAt(path, [46, 46], i)
  }

  lemma {:induction false} ComponentIff(path: Path, c: Path)
    requires 47 !in c
    ensures Components(path) != []
    ensures Components(path)[0] == c <==> PieceAt(path, c, 0)
    ensures c in Components(path)[1..] <==> exists i: nat :: i > 0 && PieceAt(path, c, i)
  {
    if path == [] {
    } else {
      var tail := path[1..];
      ComponentIff(tail, c);
      if path[0] == 47 {
        StartsPiece(path, c);
        LaterPieces(path, c);
        assert Components(path)[1..] == Components(tail);
        assert Components(tail) == [Components(tail)[0]] + Components(tail)[1..];
      } else {
        LaterPieces(path, c);
        if c != [] {
          ComponentIff(tail, c[1..]);
          FirstPiece(path, c);
        }
        assert Components(path)[1..] == Components(tail)[1..];
      }
    }
  }

  lemma StartsPiece(path: Path, c: Path)
    requires path != [] && path[0] == 47 && 47 !in c
    ensures PieceAt(path, c, 0) <==> c == []
  {
    if c != [] {
      assert c[0] in c;
    }
  }

  /** The pieces after the first byte are those of the rest of the path. */
  lemma LaterPieces(path: Path, c: Path)
    requires path != []
    ensures (exists i: nat :: i > 0 && PieceAt(path, c, i)) <==>
            (exists i: nat :: PieceAt(path[1..], c, i) && (i > 0 || path[0] == 47))
  {
    forall i: nat
      ensures PieceAt(path, c, i + 1) <==> PieceAt(path[1..], c, i) && (i > 0 || path[0] == 47)
    {
      if i + 1 + |c| <= |path| {
        assert path[1..][i..i + |c|] == path[i + 1..i + 1 + |c|];
      }
    }
    if i: nat :| i > 0 && PieceAt(path, c, i) {
      var j: nat := i - 1;
      assert PieceAt(path, c, j + 1);
      assert PieceAt(path[1..], c, j) && (j > 0 || path[0] == 47);
    }
    if i: nat :| PieceAt(path[1..], c, i) && (i > 0 || path[0] == 47) {
      var j: nat := i + 1;
      assert j > 0 && PieceAt(path, c, j);
    }
  }

  lemma FirstPiece(path: Path, c: Path)
    requires path != [] && path[0] != 47 && c != []
    ensures PieceAt(path, c, 0) <==> path[0] == c[0] && PieceAt(path[1..], c[1..], 0)
    ensures forall first :: [path[0]] + first == c <==> path[0] == c[0] && first == c[1..]
  {
    if |c| <= |path| {
      assert path[..|c|] == [path[0]] + path[1..][..|c| - 1];
      assert c == [c[0]] + c[1..];
      assert path[1..][0..|c| - 1] == path[1..][..|c| - 1];
    }
    forall first
      ensures [path[0]] + first == c <==> path[0] == c[0] && first == c[1..]
    {
      assert ([path[0]] + first)[0] == path[0] && ([path[0]] + first)[1..] == first;
      assert c == [c[0]] + c[1..];
    }
  }

  lemma CleanIff(path: Path)
    ensures CleanPath(path) <==> IsClean(path)
  {
    ComponentIff(path, [46, 46]);
    hide PieceAt;
    assert Components(path) == [Components(path)[0]] + Components(path)[1..];
  }

  /** The complaint about a path: that it is not clean, or that of the file system. */
  ghost function Complaint(kind: Kind, path: Path, files: Files): Option<Error> {
    if !IsClean(path) then Some(UnsafePath) else files(kind, path)
  }

  /** A configuration is valid exactly when its target is a name and nothing is wrong with the output
      directory, the probe and the recorder; the first of these that is wrong says why not. */
  lemma ValidateIs(c: Config, files: Files)
    ensures var output := Complaint(RealDirectory, c.output, files);
      var ffprobe := Complaint(ExecutableFile, c.ffprobe, files);
      var recorder := if c.recorder.Native? then Complaint(ExecutableFile, c.recorder.path, files) else None;
      Validate(c, files) ==
      if !NamesTarget(c.target) then Err(InvalidValue)
      else if output.Some? then Err(output.value)
      else if ffprobe.Some? then Err(ffprobe.value)
      else if recorder.Some? then Err(recorder.value)
      else Ok(())
  {
    CleanIff(c.output);
    CleanIff(c.ffprobe);
    if c.recorder.Native? {
      CleanIff(c.recorder.path);
    }
    hide CleanPath;
    hide IsClean;
    TargetIff(c.target);
    hide ValidTarget;
    hide NamesTarget;
  }

  lemma TargetIff(target: string)
    ensures ValidTarget(target) <==> NamesTarget(target)
  {
  }

  /** A text that spells a configuration is refused only for what is wrong with that configuration,
      any other text for its format. */
  lemma DecodeRefuses(text: string, files: Files)
    ensures forall c :: SpelledAs(Lines(text), c) && c.recorder != Native([]) && Validate(c, files).Err? ==>
              Decode(text, files) == Err(Validate(c, files).error)
    ensures (forall c :: SpelledAs(Lines(text), c) ==> c.recorder == Native([])) ==> Decode(text, files) == Err(InvalidFormat)
  {
    hide SpelledAs;
    hide Lines;
    hide Validate;
    var lines := Lines(text);
    FormatOnly(lines);
    if DecodeLines(lines).Ok? {
      var d := DecodeLines(lines).value;
      LinesDecode(lines, d);
    }
    forall c | SpelledAs(lines, c) && c.recorder != Native([])
      ensures DecodeLines(lines) == Ok(c)
    {
      LinesDecode(lines, c);
    }
    hide DecodeLines;
  }

  lemma {:induction false} HexFormatOnly(text: string)
    ensures DecodePath(text).Err? ==> DecodePath(text).error == InvalidFormat
    ensures DecodePath(text) == Ok([]) ==> text == []
  {
    hide HexValue;
    if |text| > 1 {
      HexFormatOnly(text[2..]);
    }
  }

  lemma FormatOnly(lines: seq<string>)
    ensures DecodeLines(lines).Err? ==> DecodeLines(lines).error == InvalidFormat
    ensures DecodeLines(lines).Ok? ==> DecodeLines(lines).value.recorder != Native([])
  {
    hide DecodePath;
    hide Field;
    forall text: string
      ensures DecodePath(text).Err? ==> DecodePath(text).error == InvalidFormat
      ensures DecodePath(text) == Ok([]) ==> text == []
    {
      HexFormatOnly(text);
    }
    forall line: string, name: string
      ensures Field(line, name).Err? ==> Field(line, name).error == InvalidFormat
    {
      FieldFormatOnly(line, name);
    }
  }

  lemma FieldFormatOnly(line: string, name: string)
    ensures Field(line, name).Err? ==> Field(line, name).error == InvalidFormat
  {
  }
}

/** ClashMate's GameSettings: six clamped fields and their `key=value` lines. */
module ClashSettings {
  import opened Wrappers
  import opened Text
  import opened SettingsFormat

  datatype Config = Config(
    elixirMultiplier: int,
    timeMinutes: int,
    isWhiteSide: bool,
    masterVolume: int,
    musicVolume: int,
    sfxVolume: int)

  const Defaults: Config := Config(1, 10, true, 100, 80, 100)

  /** The volume setters' clamp to [0, 100]. */
  function ClampVolume(v: int): int { ClampTo(0, 100, v) }

  /** The ranges the setters keep every field in. */
  predicate InRange(c: Config)
  {
    1 <= c.elixirMultiplier <= 3 && 1 <= c.timeMinutes <= 30
    && 0 <= c.masterVolume <= 100 && 0 <= c.musicVolume <= 100 && 0 <= c.sfxVolume <= 100
  }

  lemma DefaultsInRange()
    ensures InRange(Defaults)
  {
  }

  /** The effect of one line on the settings; None where Integer.parseInt throws. */
  function ApplyLine(c: Config, line: string): (r: Option<Config>)
    ensures r.None? <==>
      KeyValue(line).Some? && KeyValue(line).value.0 in IntKeys && ParseInt(KeyValue(line).value.1).None?
    ensures r.Some? && InRange(c) ==> InRange(r.value)
  {
    match KeyValue(line)
    case None => Some(c)
    case Some((key, value)) => ApplyPair(c, key, value)
  }

  /** The switch on a line's trimmed key. */
  function ApplyPair(c: Config, key: string, value: string): (r: Option<Config>)
    ensures r.None? <==> key in IntKeys && ParseInt(value).None?
    ensures r.Some? && InRange(c) ==> InRange(r.value)
  {
    if key == "isWhiteSide" then Some(c.(isWhiteSide := ParseBoolean(value)))
    else if key !in IntKeys then Some(c)
    else
      match ParseInt(value)
      case None => None
      case Some(n) =>
        Some(if key == "elixirMultiplier" then c.(elixirMultiplier := ClampMultiplier(n))
             else if key == "timeMinutes" then c.(timeMinutes := ClampMinutes(n))
             else if key == "masterVolume" then c.(masterVolume := ClampVolume(n))
             else if key == "musicVolume" then c.(musicVolume := ClampVolume(n))
             else c.(sfxVolume := ClampVolume(n)))
  }

  const IntKeys: set<string> := {"elixirMultiplier", "timeMinutes", "masterVolume", "musicVolume", "sfxVolume"}

  /** Reading lines in order either completes or stops at the first number-format error,
      keeping what earlier lines set. */
  datatype Reading = Read(config: Config) | Aborted(config: Config)

  function ApplyLines(c: Config, lines: seq<string>): Reading
    decreases |lines|
  {
    if lines == [] then Read(c)
    else
      match ApplyLine(c, lines[0])
      case None => Aborted(c)
      case Some(c') => ApplyLines(c', lines[1..])
  }

  /** load on an existing file: the new settings and load's result. */
  function LoadLines(c: Config, lines: seq<string>): (Config, bool)
  {
    match ApplyLines(c, lines)
    case Read(c') => (c', true)
    case Aborted(p) => (p.(elixirMultiplier := 1, timeMinutes := 10, isWhiteSide := true), false)
  }

  /** The lines save writes. */
  function SaveLines(c: Config): seq<string>
  {
    [ Line("elixirMultiplier", IntToString(c.elixirMultiplier)),
      Line("timeMinutes", IntToString(c.timeMinutes)),
      Line("isWhiteSide", BoolToString(c.isWhiteSide)),
      Line("masterVolume", IntToString(c.masterVolume)),
      Line("musicVolume", IntToString(c.musicVolume)),
      Line("sfxVolume", IntToString(c.sfxVolume)) ]
  }

  /** Lines that do not split into two parts and lines with unknown keys change nothing. */
  lemma IgnoredLines(c: Config, line: string)
    requires KeyValue(line).None? || (KeyValue(line).value.0 !in IntKeys && KeyValue(line).value.0 != "isWhiteSide")
    ensures ApplyLine(c, line) == Some(c)
  {
  }

  /** Known keys go through the clamping setters, so reading keeps every field in range. */
  lemma {:induction false} ApplyLinesInRange(c: Config, lines: seq<string>)
    requires InRange(c)
    ensures InRange(ApplyLines(c, lines).config)
    decreases |lines|
  {
    if lines != [] {
      match ApplyLine(c, lines[0])
      case None =>
      case Some(c') => ApplyLinesInRange(c', lines[1..]);
    }
  }

  /** A number-format error resets multiplier, time and side to their defaults but keeps the
      volumes already read. */
  lemma AbortResetsGameFields(c: Config, lines: seq<string>)
    requires ApplyLines(c, lines).Aborted?
    ensures var (r, ok) := LoadLines(c, lines);
      !ok && r.elixirMultiplier == Defaults.elixirMultiplier && r.timeMinutes == Defaults.timeMinutes
      && r.isWhiteSide == Defaults.isWhiteSide
      && r.masterVolume == ApplyLines(c, lines).config.masterVolume
      && r.musicVolume == ApplyLines(c, lines).config.musicVolume
      && r.sfxVolume == ApplyLines(c, lines).config.sfxVolume
  {
  }

  /** One line save wrote for an integer field is read back as that field's value. */
  lemma ReadIntLine(x: Config, key: string, v: int)
    requires key in IntKeys && PlainToken(key) && 0 <= v <= MaxInt32
    ensures ApplyLine(x, Line(key, IntToString(v))) == ApplyPair(x, key, IntToString(v))
    ensures ParseInt(IntToString(v)) == Some(v)
  {
    PlainInt(v);
    KeyValueOfLine(key, IntToString(v));
    ParseIntOfIntToString(v);
  }

  /** Each line save writes is read back as its field's value. */
  lemma SavedElixirMultiplier(x: Config, c: Config)
    requires InRange(c)
    ensures ApplyLine(x, SaveLines(c)[0]) == Some(x.(elixirMultiplier := c.elixirMultiplier))
  {
    ReadIntLine(x, "elixirMultiplier", c.elixirMultiplier);
  }

  lemma SavedTimeMinutes(x: Config, c: Config)
    requires InRange(c)
    ensures ApplyLine(x, SaveLines(c)[1]) == Some(x.(timeMinutes := c.timeMinutes))
  {
    ReadIntLine(x, "timeMinutes", c.timeMinutes);
  }

  lemma SavedIsWhiteSide(x: Config, c: Config)
    requires InRange(c)
    ensures ApplyLine(x, SaveLines(c)[2]) == Some(x.(isWhiteSide := c.isWhiteSide))
  {
    KeyValueOfLine("isWhiteSide", BoolToString(c.isWhiteSide));
    ParseBooleanOfBoolToString(c.isWhiteSide);
  }

  lemma SavedMasterVolume(x: Config, c: Config)
    requires InRange(c)
    ensures ApplyLine(x, SaveLines(c)[3]) == Some(x.(masterVolume := c.masterVolume))
  {
    ReadIntLine(x, "masterVolume", c.masterVolume);
  }

  lemma SavedMusicVolume(x: Config, c: Config)
    requires InRange(c)
    ensures ApplyLine(x, SaveLines(c)[4]) == Some(x.(musicVolume := c.musicVolume))
  {
    ReadIntLine(x, "musicVolume", c.musicVolume);
  }

  lemma SavedSfxVolume(x: Config, c: Config)
    requires InRange(c)
    ensures ApplyLine(x, SaveLines(c)[5]) == Some(x.(sfxVolume := c.sfxVolume))
  {
    ReadIntLine(x, "sfxVolume", c.sfxVolume);
  }

  lemma ApplyLinesStep(c: Config, lines: seq<string>, c': Config)
    requires lines != [] && ApplyLine(c, lines[0]) == Some(c')
    ensures ApplyLines(c, lines) == ApplyLines(c', lines[1..])
  {
  }

  /** Loading what save wrote restores every field, whatever the settings were before. */
  lemma SaveLoadRoundTrip(before: Config, c: Config)
    requires InRange(c)
    ensures LoadLines(before, SaveLines(c)) == (c, true)
  {
    var lines := SaveLines(c);
    var c1 := before.(elixirMultiplier := c.elixirMultiplier);
    var c2 := c1.(timeMinutes := c.timeMinutes);
    var c3 := c2.(isWhiteSide := c.isWhiteSide);
    var c4 := c3.(masterVolume := c.masterVolume);
    var c5 := c4.(musicVolume := c.musicVolume);
    SavedElixirMultiplier(before, c);
    SavedTimeMinutes(c1, c);
    SavedIsWhiteSide(c2, c);
    SavedMasterVolume(c3, c);
    SavedMusicVolume(c4, c);
    SavedSfxVolume(c5, c);
    assert c5.(sfxVolume := c.sfxVolume) == c;
    ApplyLinesStep(before, lines, c1);
    ApplyLinesStep(c1, lines[1..], c2);
    ApplyLinesStep(c2, lines[2..], c3);
    ApplyLinesStep(c3, lines[3..], c4);
    ApplyLinesStep(c4, lines[4..], c5);
    ApplyLinesStep(c5, lines[5..], c);
  }

  class GameSettings {
    var elixirMultiplier: int
    var timeMinutes: int
    var isWhiteSide: bool
    var masterVolume: int
    var musicVolume: int
    var sfxVolume: int

    function Snapshot(): Config
      reads this
    {
      Config(elixirMultiplier, timeMinutes, isWhiteSide, masterVolume, musicVolume, sfxVolume)
    }

    ghost predicate Valid()
      reads this
    {
      InRange(Snapshot())
    }

    /** The field initialisers followed by load of the settings file, given as its lines or
        None when it does not exist. */
    constructor (file: Option<seq<string>>)
      ensures Valid()
      ensures file.None? ==> Snapshot() == Defaults
      ensures file.Some? ==> Snapshot() == LoadLines(Defaults, file.value).0
    {
      elixirMultiplier, timeMinutes, isWhiteSide := 1, 10, true;
      masterVolume, musicVolume, sfxVolume := 100, 80, 100;
      new;
      var _ := Load(file);
    }

    function GetElixirMultiplier(): int reads this { elixirMultiplier }
    function GetTimeMinutes(): int reads this { timeMinutes }

    /** The time budget in seconds: a whole number of minutes between one and thirty. */
    function GetTimeSeconds(): (seconds: int)
      reads this
      requires Valid()
      ensures 60 <= seconds <= 1800 && seconds % 60 == 0 && seconds / 60 == GetTimeMinutes()
    {
      timeMinutes * 60
    }

    function IsWhiteSide(): bool reads this { isWhiteSide }
    function GetMasterVolume(): int reads this { masterVolume }
    function GetMusicVolume(): int reads this { musicVolume }
    function GetSfxVolume(): int reads this { sfxVolume }

    method SetElixirMultiplier(multiplier: int)
      modifies this
      ensures Snapshot() == old(Snapshot()).(elixirMultiplier := ClampMultiplier(multiplier))
    {
      elixirMultiplier := Max(1, Min(3, multiplier));
    }

    method SetTimeMinutes(minutes: int)
      modifies this
      ensures Snapshot() == old(Snapshot()).(timeMinutes := ClampMinutes(minutes))
    {
      timeMinutes := Max(1, Min(30, minutes));
    }

    method SetWhiteSide(isWhite: bool)
      modifies this
      ensures Snapshot() == old(Snapshot()).(isWhiteSide := isWhite)
    {
      isWhiteSide := isWhite;
    }

    method SetMasterVolume(volume: int)
      modifies this
      ensures Snapshot() == old(Snapshot()).(masterVolume := ClampVolume(volume))
    {
      masterVolume := Max(0, Min(100, volume));
    }

    method SetMusicVolume(volume: int)
      modifies this
      ensures Snapshot() == old(Snapshot()).(musicVolume := ClampVolume(volume))
    {
      musicVolume := Max(0, Min(100, volume));
    }

    method SetSfxVolume(volume: int)
      modifies this
      ensures Snapshot() == old(Snapshot()).(sfxVolume := ClampVolume(volume))
    {
      sfxVolume := Max(0, Min(100, volume));
    }

    /** The lines save prints. */
    function Save(): seq<string>
      reads this
    {
      SaveLines(Snapshot())
    }

    /** load, given the file's lines, or None when the file does not exist. */
    method Load(file: Option<seq<string>>) returns (ok: bool)
      requires Valid()
      modifies this
      ensures Valid()
      ensures file.None? ==> !ok && Snapshot() == old(Snapshot())
      ensures file.Some? ==> (Snapshot(), ok) == LoadLines(old(Snapshot()), file.value)
    {
      if file.None? {
        return false;
      }
      var lines := file.value;
      var i := 0;
      while i < |lines|
        invariant 0 <= i <= |lines| && Valid()
        invariant ApplyLines(old(Snapshot()), lines) == ApplyLines(Snapshot(), lines[i..])
      {
        assert lines[i..][1..] == lines[i + 1..];
        var applied := ReadLine(lines[i]);
        if !applied {
          ok := Recover();
          return;
        }
        i := i + 1;
      }
      ok := true;
    }

    /** One line of load's loop: false where Integer.parseInt throws, with nothing changed. */
    method ReadLine(line: string) returns (applied: bool)
      requires Valid()
      modifies this
      ensures Valid()
      ensures ApplyLine(old(Snapshot()), line) == if applied then Some(Snapshot()) else None
      ensures !applied ==> Snapshot() == old(Snapshot())
    {
      var kv := KeyValue(line);
      if kv.Some? {
        var (key, value) := kv.value;
        var number := ParseInt(value);
        if key == "elixirMultiplier" {
          if number.None? { return false; }
          SetElixirMultiplier(number.value);
        } else if key == "timeMinutes" {
          if number.None? { return false; }
          SetTimeMinutes(number.value);
        } else if key == "isWhiteSide" {
          SetWhiteSide(ParseBoolean(value));
        } else if key == "masterVolume" {
          if number.None? { return false; }
          SetMasterVolume(number.value);
        } else if key == "musicVolume" {
          if number.None? { return false; }
          SetMusicVolume(number.value);
        } else if key == "sfxVolume" {
          if number.None? { return false; }
          SetSfxVolume(number.value);
        }
      }
      applied := true;
    }

    /** load's catch block. */
    method Recover() returns (ok: bool)
      requires Valid()
      modifies this
      ensures Valid() && !ok
      ensures Snapshot() == old(Snapshot()).(elixirMultiplier := 1, timeMinutes := 10, isWhiteSide := true)
    {
      SetElixirMultiplier(1);
      SetTimeMinutes(10);
      SetWhiteSide(true);
      ok := false;
    }
  }
}

/** RuneRift's GameSettings: multiplier, time and side, without the volume fields. */
module RuneSettings {
  import opened Wrappers
  import opened Text
  import opened SettingsFormat

  datatype Config = Config(elixirMultiplier: int, timeMinutes: int, isWhiteSide: bool)

  const Defaults: Config := Config(1, 10, true)

  predicate InRange(c: Config)
  {
    1 <= c.elixirMultiplier <= 3 && 1 <= c.timeMinutes <= 30
  }

  /** The effect of one line; None where Integer.parseInt throws. Volume keys are unknown here. */
  function ApplyLine(c: Config, line: string): (r: Option<Config>)
    ensures r.None? <==>
      KeyValue(line).Some? && (KeyValue(line).value.0 == "elixirMultiplier" || KeyValue(line).value.0 == "timeMinutes") && ParseInt(KeyValue(line).value.1).None?
    ensures r.Some? && InRange(c) ==> InRange(r.value)
  {
    match KeyValue(line)
    case None => Some(c)
    case Some((key, value)) => ApplyPair(c, key, value)
  }

  function ApplyPair(c: Config, key: string, value: string): (r: Option<Config>)
    ensures r.None? <==> (key == "elixirMultiplier" || key == "timeMinutes") && ParseInt(value).None?
    ensures r.Some? && InRange(c) ==> InRange(r.value)
  {
    if key == "isWhiteSide" then Some(c.(isWhiteSide := ParseBoolean(value)))
    else if key != "elixirMultiplier" && key != "timeMinutes" then Some(c)
    else
      match ParseInt(value)
      case None => None
      case Some(n) =>
        Some(if key == "elixirMultiplier" then c.(elixirMultiplier := ClampMultiplier(n))
             else c.(timeMinutes := ClampMinutes(n)))
  }

  datatype Reading = Read(config: Config) | Aborted(config: Config)

  function ApplyLines(c: Config, lines: seq<string>): Reading
    decreases |lines|
  {
    if lines == [] then Read(c)
    else
      match ApplyLine(c, lines[0])
      case None => Aborted(c)
      case Some(c') => ApplyLines(c', lines[1..])
  }

  /** load on an existing file: the new settings and load's result. */
  function LoadLines(c: Config, lines: seq<string>): (Config, bool)
  {
    match ApplyLines(c, lines)
    case Read(c') => (c', true)
    case Aborted(_) => (Defaults, false)
  }

  function SaveLines(c: Config): seq<string>
  {
    [ Line("elixirMultiplier", IntToString(c.elixirMultiplier)),
      Line("timeMinutes", IntToString(c.timeMinutes)),
      Line("isWhiteSide", BoolToString(c.isWhiteSide)) ]
  }

  /** The catch block resets every field this variant has, so a failed load is a full reset. */
  lemma FailedLoadIsDefaults(c: Config, lines: seq<string>)
    ensures !LoadLines(c, lines).1 <==> ApplyLines(c, lines).Aborted?
    ensures !LoadLines(c, lines).1 ==> LoadLines(c, lines).0 == Defaults
  {
  }

  /** The volume lines ClashMate writes are ignored by this variant. */
  lemma VolumeLinesIgnored(c: Config, line: string)
    requires KeyValue(line).Some?
    requires KeyValue(line).value.0 in {"masterVolume", "musicVolume", "sfxVolume"}
    ensures ApplyLine(c, line) == Some(c)
  {
  }

  lemma {:induction false} ApplyLinesInRange(c: Config, lines: seq<string>)
    requires InRange(c)
    ensures InRange(ApplyLines(c, lines).config)
    decreases |lines|
  {
    if lines != [] {
      match ApplyLine(c, lines[0])
      case None =>
      case Some(c') => ApplyLinesInRange(c', lines[1..]);
    }
  }

  lemma SavedElixirMultiplier(x: Config, c: Config)
    requires InRange(c)
    ensures ApplyLine(x, SaveLines(c)[0]) == Some(x.(elixirMultiplier := c.elixirMultiplier))
  {
    PlainInt(c.elixirMultiplier);
    KeyValueOfLine("elixirMultiplier", IntToString(c.elixirMultiplier));
    ParseIntOfIntToString(c.elixirMultiplier);
  }

  lemma SavedTimeMinutes(x: Config, c: Config)
    requires InRange(c)
    ensures ApplyLine(x, SaveLines(c)[1]) == Some(x.(timeMinutes := c.timeMinutes))
  {
    PlainInt(c.timeMinutes);
    KeyValueOfLine("timeMinutes", IntToString(c.timeMinutes));
    ParseIntOfIntToString(c.timeMinutes);
  }

  lemma SavedIsWhiteSide(x: Config, c: Config)
    ensures ApplyLine(x, SaveLines(c)[2]) == Some(x.(isWhiteSide := c.isWhiteSide))
  {
    KeyValueOfLine("isWhiteSide", BoolToString(c.isWhiteSide));
    ParseBooleanOfBoolToString(c.isWhiteSide);
  }

  /** Loading what save wrote restores every field, whatever the settings were before. */
  lemma SaveLoadRoundTrip(before: Config, c: Config)
    requires InRange(c)
    ensures LoadLines(before, SaveLines(c)) == (c, true)
  {
    var lines := SaveLines(c);
    var c1 := before.(elixirMultiplier := c.elixirMultiplier);
    var c2 := c1.(timeMinutes := c.timeMinutes);
    SavedElixirMultiplier(before, c);
    SavedTimeMinutes(c1, c);
    SavedIsWhiteSide(c2, c);
    assert c2.(isWhiteSide := c.isWhiteSide) == c;
    ApplyLinesStep(before, lines, c1);
    ApplyLinesStep(c1, lines[1..], c2);
    ApplyLinesStep(c2, lines[2..], c);
  }

  lemma ApplyLinesStep(c: Config, lines: seq<string>, c': Config)
    requires lines != [] && ApplyLine(c, lines[0]) == Some(c')
    ensures ApplyLines(c, lines) == ApplyLines(c', lines[1..])
  {
  }

  class GameSettings {
    var elixirMultiplier: int
    var timeMinutes: int
    var isWhiteSide: bool

    function Snapshot(): Config
      reads this
    {
      Config(elixirMultiplier, timeMinutes, isWhiteSide)
    }

    ghost predicate Valid()
      reads this
    {
      InRange(Snapshot())
    }

    /** The field initialisers followed by load of the settings file, given as its lines or
        None when it does not exist. */
    constructor (file: Option<seq<string>>)
      ensures Valid()
      ensures file.None? ==> Snapshot() == Defaults
      ensures file.Some? ==> Snapshot() == LoadLines(Defaults, file.value).0
    {
      elixirMultiplier, timeMinutes, isWhiteSide := 1, 10, true;
      new;
      var _ := Load(file);
    }

    function GetElixirMultiplier(): int reads this { elixirMultiplier }
    function GetTimeMinutes(): int reads this { timeMinutes }

    /** The time budget in seconds: a whole number of minutes between one and thirty. */
    function GetTimeSeconds(): (seconds: int)
      reads this
      requires Valid()
      ensures 60 <= seconds <= 1800 && seconds % 60 == 0 && seconds / 60 == GetTimeMinutes()
    {
      timeMinutes * 60
    }

    function IsWhiteSide(): bool reads this { isWhiteSide }

    method SetElixirMultiplier(multiplier: int)
      modifies this
      ensures Snapshot() == old(Snapshot()).(elixirMultiplier := ClampMultiplier(multiplier))
    {
      elixirMultiplier := Max(1, Min(3, multiplier));
    }

    method SetTimeMinutes(minutes: int)
      modifies this
      ensures Snapshot() == old(Snapshot()).(timeMinutes := ClampMinutes(minutes))
    {
      timeMinutes := Max(1, Min(30, minutes));
    }

    method SetWhiteSide(isWhite: bool)
      modifies this
      ensures Snapshot() == old(Snapshot()).(isWhiteSide := isWhite)
    {
      isWhiteSide := isWhite;
    }

    function Save(): seq<string>
      reads this
    {
      SaveLines(Snapshot())
    }

    /** load, given the file's lines, or None when the file does not exist. */
    method Load(file: Option<seq<string>>) returns (ok: bool)
      requires Valid()
      modifies this
      ensures Valid()
      ensures file.None? ==> !ok && Snapshot() == old(Snapshot())
      ensures file.Some? ==> (Snapshot(), ok) == LoadLines(old(Snapshot()), file.value)
    {
      if file.None? {
        return false;
      }
      var lines := file.value;
      var i := 0;
      while i < |lines|
        invariant 0 <= i <= |lines| && Valid()
        invariant ApplyLines(old(Snapshot()), lines) == ApplyLines(Snapshot(), lines[i..])
      {
        assert lines[i..][1..] == lines[i + 1..];
        var applied := ReadLine(lines[i]);
        if !applied {
          ok := Recover();
          return;
        }
        i := i + 1;
      }
      ok := true;
    }

    /** One line of load's loop: false where Integer.parseInt throws, with nothing changed. */
    method ReadLine(line: string) returns (applied: bool)
      requires Valid()
      modifies this
      ensures Valid()
      ensures ApplyLine(old(Snapshot()), line) == if applied then Some(Snapshot()) else None
      ensures !applied ==> Snapshot() == old(Snapshot())
    {
      var kv := KeyValue(line);
      if kv.Some? {
        var (key, value) := kv.value;
        var number := ParseInt(value);
        if key == "elixirMultiplier" {
          if number.None? { return false; }
          SetElixirMultiplier(number.value);
        } else if key == "timeMinutes" {
          if number.None? { return false; }
          SetTimeMinutes(number.value);
        } else if key == "isWhiteSide" {
          SetWhiteSide(ParseBoolean(value));
        }
      }
      applied := true;
    }

    /** load's catch block. */
    method Recover() returns (ok: bool)
      modifies this
      ensures Valid() && !ok && Snapshot() == Defaults
    {
      SetElixirMultiplier(1);
      SetTimeMinutes(10);
      SetWhiteSide(true);
      ok := false;
    }
  }
}

/** RuneRift's GameTimer: a per-player countdown driven by frames, at 60 frames a second. */
module Timer {
  import opened Wrappers
  import opened Text

  const FramesPerSecond: int := 60

  /** The fields that act and setActive change. */
  datatype Clock = Clock(timeLeft: int, frameCount: int, isActive: bool)

  /** One call of act. The activity flag is kept, the time drops by at most one second and never
      below zero, and a frame counter within a second stays within a second. */
  function Tick(c: Clock): (r: Clock)
    ensures r.isActive == c.isActive
    ensures r.timeLeft == c.timeLeft || (r.timeLeft == c.timeLeft - 1 && c.timeLeft > 0)
    ensures c.timeLeft >= 0 ==> r.timeLeft >= 0
    ensures 0 <= c.frameCount < FramesPerSecond ==> 0 <= r.frameCount < FramesPerSecond
    ensures r.timeLeft != c.timeLeft ==> r.frameCount == 0
  {
    if !c.isActive then c
    else if c.frameCount + 1 >= FramesPerSecond then
      c.(frameCount := 0, timeLeft := if c.timeLeft > 0 then c.timeLeft - 1 else c.timeLeft)
    else c.(frameCount := c.frameCount + 1)
  }

  /** Whether this call of act reaches checkTimeOut: only on the call that takes the last
      second off. */
  predicate TimesOut(c: Clock): (out: bool)
    ensures out ==> c.timeLeft == 1 && Tick(c).timeLeft == 0 && Tick(c).frameCount == 0
  {
    c.isActive && c.frameCount + 1 >= FramesPerSecond && c.timeLeft > 0 && c.timeLeft - 1 <= 0
  }

  /** `n` consecutive calls of act. */
  function Ticks(c: Clock, n: nat): Clock
    decreases n
  {
    if n == 0 then c else Ticks(Tick(c), n - 1)
  }

  /** An inactive timer changes nothing. */
  lemma InactiveIsFrozen(c: Clock, n: nat)
    requires !c.isActive
    ensures Ticks(c, n) == c
  {
  }

  /** Frames short of a full second only advance the frame counter. */
  lemma {:induction false} FramesWithinSecond(c: Clock, n: nat)
    requires c.isActive && 0 <= c.frameCount && c.frameCount + n < FramesPerSecond
    ensures Ticks(c, n) == c.(frameCount := c.frameCount + n)
    decreases n
  {
    if n > 0 {
      FramesWithinSecond(Tick(c), n - 1);
    }
  }

  /** Sixty frames from the start of a second take exactly one second off (never going
      below zero) and start the next second. */
  lemma SixtyFramesOneSecond(c: Clock)
    requires c.isActive && c.frameCount == 0
    ensures Ticks(c, FramesPerSecond) == c.(timeLeft := if c.timeLeft > 0 then c.timeLeft - 1 else c.timeLeft)
  {
    FramesWithinSecond(c, FramesPerSecond - 1);
    TicksSplit(c, FramesPerSecond - 1, 1);
  }

  lemma {:induction false} TicksSplit(c: Clock, m: nat, n: nat)
    ensures Ticks(c, m + n) == Ticks(Ticks(c, m), n)
    decreases m
  {
    if m > 0 {
      TicksSplit(Tick(c), m - 1, n);
    }
  }

  /** The time left is never driven below zero, and a timeout fires exactly when the time
      reaches zero from a positive value. */
  lemma TimeoutExactlyAtZero(c: Clock)
    ensures c.timeLeft >= 0 ==> Tick(c).timeLeft >= 0
    ensures TimesOut(c) <==> (c.timeLeft > 0 && Tick(c).timeLeft == 0)
  {
  }

  /** The player checkTimeOut reports as winner. */
  function Winner(player: string): (w: string)
    ensures w == "WHITE" <==> player != "WHITE"
    ensures w == "BLACK" <==> player == "WHITE"
  {
    if player == "WHITE" then "BLACK" else "WHITE"
  }

  /** Java's `/` and `%`, which truncate toward zero. */
  function JavaDiv(a: int, b: int): int
    requires b > 0
  {
    if a >= 0 then a / b else -((-a) / b)
  }

  function JavaRem(a: int, b: int): int
    requires b > 0
  {
    a - JavaDiv(a, b) * b
  }

  /** `%02d`: zero padded to width two. */
  function Pad2(v: int): (r: string)
    ensures 0 <= v < 100 ==> |r| == 2
  {
    assert 10 <= v < 100 ==> |NatToString(v)| == |NatToString(v / 10)| + 1;
    if 0 <= v < 10 then "0" + IntToString(v) else IntToString(v)
  }

  /** String.format("%d:%02d", seconds / 60, seconds % 60), which truncates toward zero. The
      colon stands third from the end of the text (`FormatTimeFields` reads the fields back). */
  function FormatTime(seconds: int): (text: string)
    ensures seconds >= 0 ==> |text| >= 4 && text[|text| - 3] == ':'
  {
    IntToString(JavaDiv(seconds, 60)) + ":" + Pad2(JavaRem(seconds, 60))
  }

  /** For a non-negative time the text is the minutes, a colon and two digits of seconds,
      and reading the fields back gives the time. */
  lemma FormatTimeFields(seconds: int)
    requires seconds >= 0
    ensures var f := FormatTime(seconds);
      |f| >= 4 && f[|f| - 3] == ':' && AllDigits(f[..|f| - 3]) && AllDigits(f[|f| - 2..])
      && DecimalValue(f[..|f| - 3]) == seconds / 60
      && DecimalValue(f[|f| - 2..]) == seconds % 60
      && DecimalValue(f[..|f| - 3]) * 60 + DecimalValue(f[|f| - 2..]) == seconds
  {
    var m, s := seconds / 60, seconds % 60;
    var f := FormatTime(seconds);
    var two := [DigitChar(s / 10), DigitChar(s % 10)];
    assert Pad2(s) == two by {
      if s >= 10 {
        assert NatToString(s) == NatToString(s / 10) + [DigitChar(s % 10)];
      }
    }
    assert f == NatToString(m) + ":" + two;
    assert f[..|f| - 3] == NatToString(m);
    assert f[|f| - 2..] == two;
    DecimalValueOfNatToString(m);
    assert two[..1] == [DigitChar(s / 10)] && [DigitChar(s / 10)][..0] == [];
    assert DecimalValue([DigitChar(s / 10)]) == s / 10;
    assert DecimalValue(two) == 10 * (s / 10) + s % 10;
  }

  class GameTimer {
    var timeLeft: int
    var frameCount: int
    const player: string
    var isActive: bool

    function State(): Clock
      reads this
    {
      Clock(timeLeft, frameCount, isActive)
    }

    constructor (player: string, startingTime: int)
      ensures this.player == player && State() == Clock(startingTime, 0, false)
    {
      this.player := player;
      timeLeft := startingTime;
      frameCount := 0;
      isActive := false;
    }

    /** act; `winner` is what checkTimeOut announces, when it runs. */
    method Act() returns (winner: Option<string>)
      modifies this
      ensures State() == Tick(old(State()))
      ensures winner == if TimesOut(old(State())) then Some(Winner(player)) else None
    {
      winner := None;
      if !isActive {
        return;
      }
      frameCount := frameCount + 1;
      if frameCount >= FramesPerSecond {
        frameCount := 0;
        if timeLeft > 0 {
          timeLeft := timeLeft - 1;
          if timeLeft <= 0 {
            winner := Some(Winner(player));
          }
        }
      }
    }

    method SetActive(active: bool)
      modifies this
      ensures State() == old(State()).(isActive := active)
    {
      isActive := active;
    }

    function IsPlayer(playerName: string): bool
      reads this
    {
      player == playerName
    }

    function Display(): string
      reads this
    {
      player + ": " + FormatTime(timeLeft)
    }
  }
}

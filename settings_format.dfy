/** The clamps and the `key=value` line format shared by both GameSettings variants. */
module SettingsFormat {
  import opened Wrappers
  import opened Text

  function Min(a: int, b: int): int { if a <= b then a else b }
  function Max(a: int, b: int): int { if a >= b then a else b }

  /** Math.max(lo, Math.min(hi, v)). */
  function ClampTo(lo: int, hi: int, v: int): (r: int)
    requires lo <= hi
    ensures lo <= r <= hi
    ensures lo <= v <= hi ==> r == v
    ensures v < lo ==> r == lo
    ensures v > hi ==> r == hi
  {
    Max(lo, Min(hi, v))
  }

  /** setElixirMultiplier's clamp to [1, 3]. */
  function ClampMultiplier(m: int): int { ClampTo(1, 3, m) }

  /** setTimeMinutes's clamp to [1, 30]. */
  function ClampMinutes(m: int): int { ClampTo(1, 30, m) }

  function Dist(a: int, b: int): nat { if a >= b then a - b else b - a }

  /** A setter stores the in-range value nearest to the one requested. */
  lemma ClampIsNearest(lo: int, hi: int, v: int, u: int)
    requires lo <= u <= hi
    ensures Dist(ClampTo(lo, hi, v), v) <= Dist(u, v)
  {
  }

  /** The trimmed key and value of a line that `split("=")` cuts into exactly two parts;
      None for any other line, which load skips. */
  function KeyValue(line: string): (kv: Option<(string, string)>)
    ensures kv.Some? <==> |SplitOn(line, '=')| == 2
  {
    var parts := SplitOn(line, '=');
    if |parts| == 2 then Some((Trim(parts[0]), Trim(parts[1]))) else None
  }

  /** What save's println writes for one field. */
  function Line(key: string, value: string): string
  {
    key + "=" + value
  }

  predicate PlainToken(s: string)
  {
    s != [] && '=' !in s && forall i :: 0 <= i < |s| ==> !IsTrimmed(s[i])
  }

  /** A line written by save is read back as its key and value. */
  lemma KeyValueOfLine(key: string, value: string)
    requires PlainToken(key) && PlainToken(value)
    ensures KeyValue(Line(key, value)) == Some((key, value))
  {
    assert Line(key, value) == key + ['='] + value;
    SplitOfJoin(key, value, '=');
    TrimNoSpace(key);
    TrimNoSpace(value);
  }

  lemma PlainInt(n: int)
    requires n >= 0
    ensures PlainToken(IntToString(n))
  {
    NatToStringHasNo(n, '=');
  }
}

/** Decimal text and line splitting, as Java's Integer.toString, Integer.parseInt,
    Boolean.parseBoolean, String.trim and String.split("=") treat them. */
module Text {
  import opened Wrappers

  const MinInt32: int := -0x8000_0000
  const MaxInt32: int := 0x7FFF_FFFF

  predicate IsDigit(ch: char) { '0' <= ch <= '9' }

  function DigitChar(d: nat): (ch: char)
    requires d < 10
    ensures IsDigit(ch) && ch as int - '0' as int == d
  {
    (d + '0' as int) as char
  }

  function DigitValue(ch: char): nat
    requires IsDigit(ch)
  {
    ch as int - '0' as int
  }

  /** Decimal digits of `n`, most significant first, without leading zeros. */
  function NatToString(n: nat): (s: string)
    ensures |s| >= 1
    ensures forall i :: 0 <= i < |s| ==> IsDigit(s[i])
    ensures n >= 10 ==> s[0] != '0'
  {
    if n < 10 then [DigitChar(n)] else NatToString(n / 10) + [DigitChar(n % 10)]
  }

  /** Java's Integer.toString (and the `%d` conversion of String.format). */
  function IntToString(n: int): string
  {
    if n < 0 then "-" + NatToString(-n) else NatToString(n)
  }

  predicate AllDigits(s: string) { forall i :: 0 <= i < |s| ==> IsDigit(s[i]) }

  /** The value of a string of decimal digits. */
  function DecimalValue(s: string): nat
    requires AllDigits(s)
  {
    if s == [] then 0 else 10 * DecimalValue(s[..|s| - 1]) + DigitValue(s[|s| - 1])
  }

  lemma {:induction false} DecimalValueOfNatToString(n: nat)
    ensures DecimalValue(NatToString(n)) == n
  {
    if n >= 10 {
      var s := NatToString(n);
      assert s[..|s| - 1] == NatToString(n / 10);
      DecimalValueOfNatToString(n / 10);
    }
  }

  /** Java's Integer.parseInt(s) in radix 10 over ASCII digits: an optional sign, at least one
      digit, and a value within 32 bits; anything else raises NumberFormatException (here
      None). */
  function ParseInt(s: string): (r: Option<int>)
    ensures r.Some? ==> MinInt32 <= r.value <= MaxInt32
  {
    if s == [] then None
    else
      var negative := s[0] == '-';
      var digits := if s[0] == '-' || s[0] == '+' then s[1..] else s;
      if digits == [] || !AllDigits(digits) then None
      else
        var magnitude: int := DecimalValue(digits);
        var v := if negative then -magnitude else magnitude;
        if MinInt32 <= v <= MaxInt32 then Some(v) else None
  }

  lemma ParseIntOfIntToString(n: int)
    requires 0 <= n <= MaxInt32
    ensures ParseInt(IntToString(n)) == Some(n)
  {
    var s := NatToString(n);
    DecimalValueOfNatToString(n);
    assert s[0] != '-' && s[0] != '+' by { assert IsDigit(s[0]); }
  }

  function BoolToString(b: bool): string { if b then "true" else "false" }

  function LowerAscii(ch: char): char
  {
    if 'A' <= ch <= 'Z' then (ch as int - 'A' as int + 'a' as int) as char else ch
  }

  /** Java's Boolean.parseBoolean: true exactly for "true" in any letter case; it never fails. */
  function ParseBoolean(s: string): (b: bool)
    ensures b ==> |s| == 4
  {
    |s| == 4 && LowerAscii(s[0]) == 't' && LowerAscii(s[1]) == 'r'
      && LowerAscii(s[2]) == 'u' && LowerAscii(s[3]) == 'e'
  }

  lemma ParseBooleanOfBoolToString(b: bool)
    ensures ParseBoolean(BoolToString(b)) == b
  {
  }

  /** Java's trim: characters up to U+0020 are dropped from both ends. */
  predicate IsTrimmed(ch: char) { ch as int <= 0x20 }

  function TrimStart(s: string): (r: string)
    ensures |r| <= |s|
  {
    if s != [] && IsTrimmed(s[0]) then TrimStart(s[1..]) else s
  }

  function TrimEnd(s: string): (r: string)
    ensures |r| <= |s|
  {
    if s != [] && IsTrimmed(s[|s| - 1]) then TrimEnd(s[..|s| - 1]) else s
  }

  function Trim(s: string): string { TrimEnd(TrimStart(s)) }

  /** `r` is the slice of `s` starting at `i`, and everything outside it is trimmed. */
  predicate TrimmedAt(s: string, r: string, i: int)
  {
    0 <= i <= |s| - |r| && r == s[i..i + |r|]
    && (forall j :: 0 <= j < i ==> IsTrimmed(s[j]))
    && (forall j :: i + |r| <= j < |s| ==> IsTrimmed(s[j]))
  }

  lemma {:induction false} TrimStartDrops(s: string)
    ensures var r := TrimStart(s);
      r == s[|s| - |r|..] && (r != [] ==> !IsTrimmed(r[0]))
      && forall i :: 0 <= i < |s| - |r| ==> IsTrimmed(s[i])
    decreases |s|
  {
    if s != [] && IsTrimmed(s[0]) {
      TrimStartDrops(s[1..]);
    }
  }

  lemma {:induction false} TrimEndDrops(s: string)
    ensures var r := TrimEnd(s);
      r == s[..|r|] && (r != [] ==> !IsTrimmed(r[|r| - 1]))
      && forall i :: |r| <= i < |s| ==> IsTrimmed(s[i])
    decreases |s|
  {
    if s != [] && IsTrimmed(s[|s| - 1]) {
      TrimEndDrops(s[..|s| - 1]);
    }
  }

  /** Java's trim keeps a slice of the text that neither starts nor ends with a character up to
      U+0020, and everything it drops on either side is such a character. */
  lemma TrimIsSlice(s: string)
    ensures var r := Trim(s); r != [] ==> !IsTrimmed(r[0]) && !IsTrimmed(r[|r| - 1])
    ensures exists i :: TrimmedAt(s, Trim(s), i)
  {
    var a := TrimStart(s);
    var r := TrimEnd(a);
    TrimStartDrops(s);
    TrimEndDrops(a);
    var i := |s| - |a|;
    assert r == s[i..i + |r|] by {
      assert a == s[i..];
      assert r == a[..|r|];
    }
    forall j | i + |r| <= j < |s|
      ensures IsTrimmed(s[j])
    {
      assert s[j] == a[j - i];
    }
    assert TrimmedAt(s, r, i);
  }

  lemma TrimNoSpace(s: string)
    requires forall i :: 0 <= i < |s| ==> !IsTrimmed(s[i])
    ensures Trim(s) == s
  {
  }

  /** All fields of `s` between occurrences of `sep`, empty ones included. */
  function Fields(s: string, sep: char): (r: seq<string>)
    ensures |r| >= 1
    decreases |s|
  {
    if s == [] then [[]]
    else
      var rest := Fields(s[1..], sep);
      if s[0] == sep then [[]] + rest else [[s[0]] + rest[0]] + rest[1..]
  }

  /** The fields put back together with the separator between them. */
  function Join(parts: seq<string>, sep: char): string
    requires parts != []
    decreases |parts|
  {
    if |parts| == 1 then parts[0] else parts[0] + [sep] + Join(parts[1..], sep)
  }

  /** No field holds the separator, and joined with it the fields give back the text. */
  lemma {:induction false} JoinFields(s: string, sep: char)
    ensures forall i :: 0 <= i < |Fields(s, sep)| ==> sep !in Fields(s, sep)[i]
    ensures Join(Fields(s, sep), sep) == s
    decreases |s|
  {
    if s != [] {
      var rest := Fields(s[1..], sep);
      JoinFields(s[1..], sep);
      if s[0] == sep {
        assert ([[]] + rest)[1..] == rest;
      } else {
        JoinPrepend(s[0], rest, sep);
      }
    }
  }

  lemma JoinPrepend(ch: char, parts: seq<string>, sep: char)
    requires parts != []
    ensures Join([[ch] + parts[0]] + parts[1..], sep) == [ch] + Join(parts, sep)
  {
    var ps := [[ch] + parts[0]] + parts[1..];
    if |parts| > 1 {
      assert ps[1..] == parts[1..];
    }
  }

  function DropTrailingEmpty(parts: seq<string>): seq<string>
  {
    if parts != [] && parts[|parts| - 1] == [] then DropTrailingEmpty(parts[..|parts| - 1]) else parts
  }

  lemma {:induction false} DropTrailingEmptyPrefix(parts: seq<string>)
    ensures var r := DropTrailingEmpty(parts);
      |r| <= |parts| && r == parts[..|r|] && (r != [] ==> r[|r| - 1] != [])
      && forall i :: |r| <= i < |parts| ==> parts[i] == []
    decreases |parts|
  {
    if parts != [] && parts[|parts| - 1] == [] {
      DropTrailingEmptyPrefix(parts[..|parts| - 1]);
    }
  }

  /** Java's s.split(sep) for a one-character separator: `s` itself when the separator does not
      occur in it (so "" gives [""]), otherwise its fields with the trailing empty ones removed. */
  function SplitOn(s: string, sep: char): (r: seq<string>)
    ensures sep !in s ==> r == [s]
  {
    if sep !in s then [s] else DropTrailingEmpty(Fields(s, sep))
  }

  /** split's parts hold no separator; when the separator occurs, they are the fields up to the
      last non-empty one, and every field after them is empty. */
  lemma SplitOnFields(s: string, sep: char)
    requires sep in s
    ensures var r := SplitOn(s, sep);
      var f := Fields(s, sep);
      |r| <= |f| && r == f[..|r|] && (r == [] || r[|r| - 1] != [])
      && (forall i :: |r| <= i < |f| ==> f[i] == [])
      && (forall i :: 0 <= i < |r| ==> sep !in r[i])
  {
    JoinFields(s, sep);
    DropTrailingEmptyPrefix(Fields(s, sep));
  }

  lemma {:induction false} FieldsOfJoin(k: string, v: string, sep: char)
    requires sep !in k && sep !in v
    ensures Fields(k + [sep] + v, sep) == [k, v]
    decreases |k|
  {
    if k == [] {
      assert [sep] + v == k + [sep] + v;
      FieldsOfNoSep(v, sep);
    } else {
      assert (k + [sep] + v)[1..] == k[1..] + [sep] + v;
      FieldsOfJoin(k[1..], v, sep);
      assert [k[0]] + k[1..] == k;
    }
  }

  lemma {:induction false} FieldsOfNoSep(s: string, sep: char)
    requires sep !in s
    ensures Fields(s, sep) == [s]
    decreases |s|
  {
    if s != [] {
      FieldsOfNoSep(s[1..], sep);
      assert [s[0]] + s[1..] == s;
    }
  }

  lemma SplitOfJoin(k: string, v: string, sep: char)
    requires sep !in k && sep !in v && v != []
    ensures SplitOn(k + [sep] + v, sep) == [k, v]
  {
    assert (k + [sep] + v)[|k|] == sep;
    FieldsOfJoin(k, v, sep);
  }

  lemma NatToStringHasNo(n: nat, ch: char)
    requires !IsDigit(ch)
    ensures ch !in NatToString(n)
  {
  }
}

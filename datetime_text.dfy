/**
 * The fixed text form "YYYY:MM:DD HH:MM:SS" of the EXIF date tags:
 * `strftime("%Y:%m:%d %H:%M:%S")` on the write side and
 * `datetime.strptime(s, "%Y:%m:%d %H:%M:%S")` on the read side.
 *
 * Parse follows what CPython's `strptime` accepts for this format: four
 * digits for the year; one or two digits for month, day, hour, minute and
 * second (a day may also be a space and one digit); one or more
 * whitespace characters where the format has its space; nothing after the
 * seconds. The regular expression lets seconds 60 and 61 through and the
 * `datetime` constructor then rejects them, as it rejects year 0 and a
 * day past the end of its month.
 */
module DateTimeText {
  import opened Wrappers
  import opened Calendar

  predicate IsDigit(c: char) {
    '0' <= c <= '9'
  }

  function DigitValue(c: char): int
    requires IsDigit(c)
  {
    c as int - '0' as int
  }

  function DigitChar(v: int): (c: char)
    requires 0 <= v <= 9
    ensures IsDigit(c) && DigitValue(c) == v
  {
    ('0' as int + v) as char
  }

  /**
   * The ASCII characters that `\s` matches in a text pattern: space, tab,
   * line feed, vertical tab, form feed, carriage return, and the four
   * separators 0x1C to 0x1F.
   */
  predicate IsBlank(c: char) {
    c == ' ' || '\t' <= c <= '\r' || '\U{001C}' <= c <= '\U{001F}'
  }

  /** A parsed field and the text after it. */
  datatype Field = Field(value: int, rest: string)

  /**
   * A one- or two-digit field with value in [lo, hi], followed by a
   * non-digit or the end. Within this format a run of three or more
   * digits never matches.
   */
  function Number(s: string, lo: int, hi: int): Option<Field> {
    if |s| == 0 || !IsDigit(s[0]) then None
    else if |s| == 1 || !IsDigit(s[1]) then
      var v := DigitValue(s[0]);
      if lo <= v <= hi then Some(Field(v, s[1..])) else None
    else if |s| > 2 && IsDigit(s[2]) then None
    else
      var v := DigitValue(s[0]) * 10 + DigitValue(s[1]);
      if lo <= v <= hi then Some(Field(v, s[2..])) else None
  }

  /** `%d`: a number from 1 to 31, or a space followed by a digit from 1 to 9. */
  function Day(s: string): Option<Field> {
    if |s| >= 2 && s[0] == ' ' && '1' <= s[1] <= '9' then Some(Field(DigitValue(s[1]), s[2..]))
    else Number(s, 1, 31)
  }

  function Expect(s: string, c: char): Option<string> {
    if |s| > 0 && s[0] == c then Some(s[1..]) else None
  }

  /** The number of leading whitespace characters. */
  function BlankRun(s: string): (n: nat)
    ensures n <= |s|
    ensures forall i :: 0 <= i < n ==> IsBlank(s[i])
    ensures n < |s| ==> !IsBlank(s[n])
  {
    if |s| > 0 && IsBlank(s[0]) then 1 + BlankRun(s[1..]) else 0
  }

  function Blanks(s: string): Option<string> {
    var n := BlankRun(s);
    if n == 0 then None else Some(s[n..])
  }

  function Year(s: string): Option<Field> {
    if |s| < 4 || !IsDigit(s[0]) || !IsDigit(s[1]) || !IsDigit(s[2]) || !IsDigit(s[3]) then None
    else Some(Field(DigitValue(s[0]) * 1000 + DigitValue(s[1]) * 100 + DigitValue(s[2]) * 10 + DigitValue(s[3]), s[4..]))
  }

  /**
   * The regular-expression stage of `strptime`: the fields as matched,
   * before `datetime` checks that they form a real date.
   */
  function Scan(s: string): Option<DateTime> {
    var y :- Year(s);
    var r1 :- Expect(y.rest, ':');
    var mo :- Number(r1, 1, 12);
    var r2 :- Expect(mo.rest, ':');
    var d :- Day(r2);
    var r3 :- Blanks(d.rest);
    var c :- ScanClock(r3);
    Some(DateTime(y.value, mo.value, d.value, c.0, c.1, c.2))
  }

  /** The "%H:%M:%S" part, which must end the text. */
  function ScanClock(s: string): Option<(int, int, int)> {
    var h :- Number(s, 0, 23);
    var r4 :- Expect(h.rest, ':');
    var mi :- Number(r4, 0, 59);
    var r5 :- Expect(mi.rest, ':');
    var sec :- Number(r5, 0, 61);
    if sec.rest != [] then None else Some((h.value, mi.value, sec.value))
  }

  /** `ExifHandler.parse_exif_datetime_str`; None where `strptime` raises. */
  function Parse(s: string): (r: Option<Time>)
    ensures r.Some? <==> Scan(s).Some? && Valid(Scan(s).value)
    ensures r.Some? ==> FromSeconds(r.value) == Scan(s).value
  {
    match Scan(s)
    case None => None
    case Some(d) =>
      if Valid(d) then FromToSeconds(d); Some(ToSeconds(d)) else None
  }

  function Pad2(v: int): string
    requires 0 <= v < 100
  {
    [DigitChar(v / 10), DigitChar(v % 10)]
  }

  function Pad4(v: int): string
    requires 0 <= v < 10000
  {
    Pad2(v / 100) + Pad2(v % 100)
  }

  /** The fields of a date in the fixed format, every number zero-padded. */
  function Text(d: DateTime): (s: string)
    requires Valid(d)
    ensures |s| == 19
  {
    Pad4(d.year) + (":" + (Pad2(d.month) + (":" + (Pad2(d.day) + (" "
      + (Pad2(d.hour) + (":" + (Pad2(d.minute) + (":" + Pad2(d.second))))))))))
  }

  /** `dt.strftime("%Y:%m:%d %H:%M:%S")`. */
  function Format(t: Time): (r: string)
    ensures |r| == 19
  {
    Text(FromSeconds(t))
  }

  /** The layout "YYYY:MM:DD HH:MM:SS": digits everywhere but the five separators. */
  lemma FormatLayout(t: Time)
    ensures var r := Format(t);
      && r[4] == ':' && r[7] == ':' && r[10] == ' ' && r[13] == ':' && r[16] == ':'
      && forall i :: 0 <= i < 19 && i != 4 && i != 7 && i != 10 && i != 13 && i != 16 ==> IsDigit(r[i])
  {
  }

  lemma NumberOfPad2(v: int, lo: int, hi: int, rest: string)
    requires 0 <= lo <= v <= hi < 100
    requires rest == [] || !IsDigit(rest[0])
    ensures Number(Pad2(v) + rest, lo, hi) == Some(Field(v, rest))
  {
    var s := Pad2(v) + rest;
    assert s[0] == DigitChar(v / 10) && s[1] == DigitChar(v % 10);
    assert s[2..] == rest;
  }

  lemma YearOfPad4(v: int, rest: string)
    requires 0 <= v < 10000
    ensures Year(Pad4(v) + rest) == Some(Field(v, rest))
  {
    var s := Pad4(v) + rest;
    var hi, lo := v / 100, v % 100;
    assert v == hi * 100 + lo;
    assert hi == (hi / 10) * 10 + hi % 10;
    assert lo == (lo / 10) * 10 + lo % 10;
    assert s[0] == DigitChar(hi / 10) && s[1] == DigitChar(hi % 10);
    assert s[2] == DigitChar(lo / 10) && s[3] == DigitChar(lo % 10);
    assert s[4..] == rest;
  }

  lemma ScanClockText(h: int, m: int, sec: int)
    requires 0 <= h < 24 && 0 <= m < 60 && 0 <= sec < 60
    ensures ScanClock(Pad2(h) + (":" + (Pad2(m) + (":" + Pad2(sec))))) == Some((h, m, sec))
  {
    var tail4 := ":" + Pad2(sec);
    var tail3 := ":" + (Pad2(m) + tail4);
    NumberOfPad2(h, 0, 23, tail3);
    assert Expect(tail3, ':') == Some(Pad2(m) + tail4);
    NumberOfPad2(m, 0, 59, tail4);
    assert Expect(tail4, ':') == Some(Pad2(sec));
    NumberOfPad2(sec, 0, 61, []);
    assert Pad2(sec) + [] == Pad2(sec);
  }

  lemma ScanText(d: DateTime)
    requires Valid(d)
    ensures Scan(Text(d)) == Some(d)
  {
    var clock := Pad2(d.hour) + (":" + (Pad2(d.minute) + (":" + Pad2(d.second))));
    var tail2 := " " + clock;
    var tail1 := ":" + (Pad2(d.day) + tail2);
    var tail0 := ":" + (Pad2(d.month) + tail1);
    var s := Text(d);
    assert s == Pad4(d.year) + tail0;
    YearOfPad4(d.year, tail0);
    assert Expect(tail0, ':') == Some(Pad2(d.month) + tail1);
    NumberOfPad2(d.month, 1, 12, tail1);
    assert Expect(tail1, ':') == Some(Pad2(d.day) + tail2);
    assert Day(Pad2(d.day) + tail2) == Some(Field(d.day, tail2)) by {
      NumberOfPad2(d.day, 1, 31, tail2);
    }
    assert Blanks(tail2) == Some(clock) by {
      assert tail2[1..] == clock;
      assert BlankRun(tail2) == 1;
    }
    ScanClockText(d.hour, d.minute, d.second);
  }

  /** What the write side produces, the read side gives back: the round trip of the EXIF date text. */
  lemma ParseFormat(t: Time)
    ensures Parse(Format(t)) == Some(t)
  {
    ScanText(FromSeconds(t));
  }
}

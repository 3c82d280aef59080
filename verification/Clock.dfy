/** The 24-hour clock of backend/internal/cdm/time_math.go, in whole seconds. */
module Clock {
  import opened Text

  const DAY := 86400
  const HALF_DAY := 43200

  type Second = s: int | 0 <= s < DAY

  /** A clock field: empty, a time of day, or text that is neither. */
  datatype Clock = Absent | At(sec: Second) | Malformed(text: string)

  // ---- Reading and writing clock text ---------------------------------------

  function ToHHMMSS(value: string): string {
    var v := Trim(value);
    if |v| == 4 then v + "00" else v
  }

  predicate IsDigit(c: char) {
    '0' <= c <= '9'
  }

  function TwoDigits(a: char, b: char): int {
    (a as int - '0' as int) * 10 + (b as int - '0' as int)
  }

  function ParseClock(value: string): Option<Second> {
    var v := ToHHMMSS(value);
    if |v| != 6 || !(forall i :: 0 <= i < 6 ==> IsDigit(v[i])) then None
    else
      var hh, mm, ss := TwoDigits(v[0], v[1]), TwoDigits(v[2], v[3]), TwoDigits(v[4], v[5]);
      if hh > 23 || mm > 59 || ss > 59 then None else Some(hh * 3600 + mm * 60 + ss)
  }

  function Digit(d: int): char
    requires 0 <= d < 10
  {
    ('0' as int + d) as char
  }

  function Pair(n: int): string
    requires 0 <= n < 100
  {
    [Digit(n / 10), Digit(n % 10)]
  }

  function FormatClock(total: Second): string {
    Pair(total / 3600) + Pair(total % 3600 / 60) + Pair(total % 60)
  }

  function ReadClock(value: string): Clock {
    var v := ToHHMMSS(value);
    if v == "" then Absent
    else match ParseClock(value)
      case Some(sec) => At(sec)
      case None => Malformed(v)
  }

  lemma PairReadsBack(n: int)
    requires 0 <= n < 100
    ensures |Pair(n)| == 2 && IsDigit(Pair(n)[0]) && IsDigit(Pair(n)[1])
    ensures TwoDigits(Pair(n)[0], Pair(n)[1]) == n
  {
  }

  lemma DigitsReadBack(a: char, b: char)
    requires IsDigit(a) && IsDigit(b)
    ensures 0 <= TwoDigits(a, b) < 100 && Pair(TwoDigits(a, b)) == [a, b]
  {
  }

  lemma DigitsAreNotSpace(s: string)
    requires s != [] ==> IsDigit(s[0]) && IsDigit(s[|s| - 1])
    ensures Trim(s) == s
  {
  }

  /** Parsing what was formatted gives the same second back. */
  lemma ParseOfFormat(sec: Second)
    ensures ParseClock(FormatClock(sec)) == Some(sec)
  {
    var f := FormatClock(sec);
    PairReadsBack(sec / 3600);
    PairReadsBack(sec % 3600 / 60);
    PairReadsBack(sec % 60);
    assert f[0..2] == Pair(sec / 3600) && f[2..4] == Pair(sec % 3600 / 60) && f[4..6] == Pair(sec % 60);
    DigitsAreNotSpace(f);
    assert ToHHMMSS(f) == f;
    assert forall i :: 0 <= i < 6 ==> IsDigit(f[i]);
  }

  /** Formatting what was parsed gives the canonical six-digit text back. */
  lemma FormatOfParse(value: string)
    requires ParseClock(value).Some?
    ensures FormatClock(ParseClock(value).value) == ToHHMMSS(value)
  {
    var v := ToHHMMSS(value);
    var hh, mm, ss := TwoDigits(v[0], v[1]), TwoDigits(v[2], v[3]), TwoDigits(v[4], v[5]);
    DigitsReadBack(v[0], v[1]);
    DigitsReadBack(v[2], v[3]);
    DigitsReadBack(v[4], v[5]);
    var total := hh * 3600 + mm * 60 + ss;
    assert total / 3600 == hh && total % 3600 == mm * 60 + ss;
    assert total % 3600 / 60 == mm && total % 60 == ss;
    assert v == v[0..2] + v[2..4] + v[4..6];
  }

  /** Comparing canonical text, as the slot-collision test does, is the same as
      comparing clock values: for every two texts, parsable or not. */
  lemma SameTextIsSameClock(a: string, b: string)
    ensures ToHHMMSS(a) == ToHHMMSS(b) <==> ReadClock(a) == ReadClock(b)
  {
    if ParseClock(a).Some? {
      FormatOfParse(a);
    }
    if ParseClock(b).Some? {
      FormatOfParse(b);
    }
  }

  // ---- Arithmetic on the circle ---------------------------------------------

  /** The remainder of a division that truncates toward zero. */
  function TruncMod(a: int, b: int): int
    requires b > 0
  {
    if a >= 0 then a % b else -((-a) % b)
  }

  /** Moves a time of day by a number of seconds; other values stay as they are. */
  function Shift(c: Clock, seconds: int): Clock {
    match c
    case At(base) =>
      var r := TruncMod(base + seconds, DAY);
      At(if r < 0 then r + DAY else r)
    case _ => c
  }

  /** Signed seconds from one clock to another; zero when either is not a time. */
  function Between(from: Clock, to: Clock): int {
    if !from.At? || !to.At? then 0
    else
      var d := to.sec - from.sec;
      var e := if d <= -HALF_DAY then d + DAY else d;
      if e > HALF_DAY then e - DAY else e
  }

  predicate IsAfterOrEqual(a: Clock, b: Clock) {
    Between(b, a) >= 0
  }

  predicate IsMoreThanPast(value: Clock, reference: Clock, seconds: int) {
    Between(value, reference) > seconds
  }

  predicate IsEarlierClock(candidate: Clock, existing: Clock) {
    candidate.At? && (!existing.At? || Between(candidate, existing) > 0)
  }

  /** The rank `compareClockForSort` gives a clock: values that are not times come last. */
  function ClockRank(c: Clock, anchor: Second): int {
    if c.At? then Between(At(anchor), c) else DAY
  }

  lemma ShiftIsModular(sec: Second, seconds: int)
    ensures Shift(At(sec), seconds) == At((sec + seconds) % DAY)
  {
  }

  lemma ModAbsorbs(a: int, n: int)
    ensures (a % DAY + n) % DAY == (a + n) % DAY
  {
    var q, r := a / DAY, a % DAY;
    var p, t := (r + n) / DAY, (r + n) % DAY;
    assert a + n == (q + p) * DAY + t;
  }

  lemma ShiftsCompose(c: Clock, m: int, n: int)
    ensures Shift(Shift(c, m), n) == Shift(c, m + n)
  {
    if c.At? {
      var s := c.sec;
      assert Shift(c, m) == At((s + m) % DAY) by { ShiftIsModular(s, m); }
      assert Shift(Shift(c, m), n) == At(((s + m) % DAY + n) % DAY) by { ShiftIsModular((s + m) % DAY, n); }
      assert Shift(c, m + n) == At((s + (m + n)) % DAY) by { ShiftIsModular(s, m + n); }
      ModAbsorbs(s + m, n);
      assert s + m + n == s + (m + n);
    }
  }

  /** `Between` is the one representative of the difference in (-12 h, 12 h]. */
  lemma BetweenIsTheShortWay(from: Second, to: Second, d: int)
    requires -HALF_DAY < d <= HALF_DAY
    ensures Shift(At(from), d) == At(to) <==> d == Between(At(from), At(to))
  {
    ShiftIsModular(from, d);
    var b := Between(At(from), At(to));
    var q := (from + d) / DAY;
    assert from + d == q * DAY + (from + d) % DAY;
    assert -1 <= q <= 1;
  }

  lemma BetweenRange(a: Clock, b: Clock)
    ensures -HALF_DAY < Between(a, b) <= HALF_DAY
    ensures Between(b, a) == -Between(a, b) <==> Between(a, b) != HALF_DAY
    ensures Between(a, b) == HALF_DAY ==> Between(b, a) == HALF_DAY
  {
  }

  /** Sorting by clock around an anchor separates any two different times of day. */
  lemma RankSeparates(a: Clock, b: Clock, anchor: Second)
    ensures ClockRank(a, anchor) == ClockRank(b, anchor) <==> (a == b || (!a.At? && !b.At?))
    ensures a.At? && !b.At? ==> ClockRank(a, anchor) < ClockRank(b, anchor)
  {
    if a.At? && b.At? && ClockRank(a, anchor) == ClockRank(b, anchor) {
      BetweenIsTheShortWay(anchor, a.sec, ClockRank(a, anchor));
      BetweenIsTheShortWay(anchor, b.sec, ClockRank(b, anchor));
    }
  }

  // ---- What the tests measure -----------------------------------------------------------

  /** Of two clocks up to half a day apart the tests measure the seconds from one to the other. */
  lemma ClockTestsMeasure(sec: Second, d: int, limit: int)
    requires -43_200 < d <= 43_200
    ensures var a, b := At(sec), Shift(At(sec), d);
            && (IsAfterOrEqual(b, a) <==> d >= 0)
            && (IsEarlierClock(a, b) <==> d > 0)
            && (IsMoreThanPast(a, b, limit) <==> d > limit)
            && ClockRank(b, sec) == d
  {
    ShiftIsModular(sec, d);
    BetweenIsTheShortWay(sec, Shift(At(sec), d).sec, d);
  }

  /** What is no time is after nothing and before nothing; any time is earlier than it, and it ranks behind them all. */
  lemma UnreadableClocks(a: Clock, b: Clock, anchor: Second, limit: nat)
    requires !a.At? || !b.At?
    ensures IsAfterOrEqual(a, b) && IsAfterOrEqual(b, a) && !IsMoreThanPast(a, b, limit)
    ensures IsEarlierClock(a, b) <==> a.At?
    ensures !a.At? && b.At? ==> ClockRank(b, anchor) < ClockRank(a, anchor)
  {
  }

  /** Four digits are an hour and a minute; blanks around them do not count. */
  lemma ReadsTheMinute(sec: Second)
    ensures ReadClock(FormatClock(sec)[..4]) == At(sec / 60 * 60)
  {
    var v := FormatClock(sec)[..4];
    PairReadsBack(sec / 3600);
    PairReadsBack(sec % 3600 / 60);
    assert v[0..2] == Pair(sec / 3600) && v[2..4] == Pair(sec % 3600 / 60);
    DigitsAreNotSpace(v);
    assert ToHHMMSS(v) == v + "00";
    assert forall i :: 0 <= i < 4 ==> IsDigit(v[i]);
  }

  /** 12:34:56 is 45296 seconds after midnight, in digits from the hour to the second. */
  lemma ReadsDigitsInOrder()
    ensures FormatClock(45_296) == "123456" && ReadClock(" 2359 ") == At(86_340)
            && ReadClock("2400") == Malformed("240000")
  {
    assert " 2359 "[1..] == "2359 " && "2359 "[..4] == "2359";
    assert TrimLeft(" 2359 ") == "2359 " && TrimRight("2359 ") == "2359";
    assert Trim("2400") == "2400" && ToHHMMSS("2400") == "240000" && Trim("240000") == "240000";
    assert ToHHMMSS(" 2359 ") == "235900";
  }
}

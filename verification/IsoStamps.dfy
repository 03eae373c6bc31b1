/** The timestamps that `datetime.isoformat()` writes for an aware datetime, and why
    comparing them as text compares them in time, within one zone. */
module IsoStamps {
  import opened StringOrder

  // ---- digits ----

  predicate IsDigits(s: string) {
    forall i :: 0 <= i < |s| ==> '0' <= s[i] <= '9'
  }

  function Num(s: string): nat
    requires IsDigits(s)
  {
    if s == "" then 0 else 10 * Num(s[..|s| - 1]) + (s[|s| - 1] - '0') as int
  }

  /** Text order and number order say the same of the two pairs. */
  ghost predicate Agree(s: string, t: string, x: int, y: int) {
    (Leq(s, t) <==> x <= y) && (Leq(t, s) <==> y <= x)
  }

  lemma {:induction false} LeqSplits(a: string, b: string, c: string, d: string)
    requires |a| == |b|
    ensures Leq(a + c, b + d) <==> if a == b then Leq(c, d) else Leq(a, b)
  {
    if a == [] {
      assert a + c == c && b + d == d;
    } else {
      assert (a + c)[1..] == a[1..] + c && (b + d)[1..] == b[1..] + d;
      assert a == [a[0]] + a[1..] && b == [b[0]] + b[1..];
      LeqSplits(a[1..], b[1..], c, d);
    }
  }

  lemma AgreeOnEqual(s: string, t: string, x: int, y: int)
    requires Agree(s, t, x, y)
    ensures x == y <==> s == t
  {
    if x == y { LeqAntisymmetric(s, t); } else { LeqTotal(s, t); LeqReflexive(s); }
  }

  /** Texts of equal length, extended: the numbers must extend lexicographically. */
  lemma Extend(s: string, t: string, x: int, y: int, s': string, t': string, u: int, v: int, x': int, y': int)
    requires |s| == |t| && Agree(s, t, x, y) && Agree(s', t', u, v)
    requires x' <= y' <==> x < y || (x == y && u <= v)
    requires y' <= x' <==> y < x || (x == y && v <= u)
    ensures Agree(s + s', t + t', x', y')
  {
    hide Leq;
    AgreeOnEqual(s, t, x, y);
    LeqSplits(s, t, s', t');
    LeqSplits(t, s, t', s');
  }

  lemma Same(s: string)
    ensures Agree(s, s, 0, 0)
  {
    LeqReflexive(s);
  }

  lemma OneDigit(c: char, d: char)
    requires '0' <= c <= '9' && '0' <= d <= '9'
    ensures Agree([c], [d], (c - '0') as int, (d - '0') as int)
  {
  }

  lemma {:induction false} DigitsAgree(s: string, t: string)
    requires |s| == |t| && IsDigits(s) && IsDigits(t)
    ensures Agree(s, t, Num(s), Num(t))
  {
    hide Leq, Agree;
    if s == "" {
      assert s == t;
      Same(s);
    } else {
      var i, j, c, d := s[..|s| - 1], t[..|t| - 1], s[|s| - 1], t[|t| - 1];
      assert s == i + [c] && t == j + [d];
      DigitsAgree(i, j);
      OneDigit(c, d);
      Extend(i, j, Num(i), Num(j), [c], [d], (c - '0') as int, (d - '0') as int, Num(s), Num(t));
    }
  }

  // ---- the calendar ----

  predicate Leap(year: nat) {
    year % 4 == 0 && (year % 100 != 0 || year % 400 == 0)
  }

  /** The length of month `k`, counting months from the start of year zero. */
  function MonthLength(k: nat): (n: nat)
    ensures 28 <= n <= 31
  {
    var month := k % 12 + 1;
    if month == 2 then (if Leap(k / 12) then 29 else 28)
    else if month in {4, 6, 9, 11} then 30
    else 31
  }

  /** Days from the start of year zero to the start of month `k`. */
  function MonthStart(k: nat): nat {
    if k == 0 then 0 else MonthStart(k - 1) + MonthLength(k - 1)
  }

  lemma NextMonth(year: nat, m: nat)
    requires m < 12
    ensures var n := MonthStart(12 * year + m + 1) - MonthStart(12 * year + m);
            n == if m == 1 then (if Leap(year) then 29 else 28) else if m in {3, 5, 8, 10} then 30 else 31
  {
    assert (12 * year + m) % 12 == m && (12 * year + m) / 12 == year;
  }

  /** The days of a year, month by month. */
  lemma YearLength(year: nat)
    ensures MonthStart(12 * year + 12) == MonthStart(12 * year) + if Leap(year) then 366 else 365
  {
    hide MonthStart;
    NextMonth(year, 0);
    NextMonth(year, 1);
    NextMonth(year, 2);
    NextMonth(year, 3);
    NextMonth(year, 4);
    NextMonth(year, 5);
    NextMonth(year, 6);
    NextMonth(year, 7);
    NextMonth(year, 8);
    NextMonth(year, 9);
    NextMonth(year, 10);
    NextMonth(year, 11);
  }

  /** Days before the year `y + 1`, as the proleptic Gregorian calendar counts them. */
  lemma {:induction false} YearStart(y: nat)
    ensures MonthStart(12 * y + 12) == 366 + 365 * y + y / 4 - y / 100 + y / 400
  {
    hide MonthStart, MonthLength;
    YearLength(y);
    if y > 0 {
      YearStart(y - 1);
      assert 12 * (y - 1) + 12 == 12 * y;
      LeapDays(y);
    } else {
      assert MonthStart(0) == 0 by { NoMonths(); }
    }
  }

  lemma NoMonths()
    ensures MonthStart(0) == 0
  {
  }

  lemma LeapDays(y: nat)
    requires y > 0
    ensures y / 4 - y / 100 + y / 400 == (y - 1) / 4 - (y - 1) / 100 + (y - 1) / 400 + if Leap(y) then 1 else 0
  {
    By4(y);
    By100(y);
    By400(y);
  }

  lemma By4(y: nat)
    requires y > 0
    ensures y / 4 - (y - 1) / 4 == if y % 4 == 0 then 1 else 0
  {
  }

  lemma By100(y: nat)
    requires y > 0
    ensures y / 100 - (y - 1) / 100 == if y % 100 == 0 then 1 else 0
    ensures y % 100 == 0 ==> y % 4 == 0
  {
    var q := y / 100;
    assert y == 4 * (25 * q) + y % 100;
  }

  lemma By400(y: nat)
    requires y > 0
    ensures y / 400 - (y - 1) / 400 == if y % 400 == 0 then 1 else 0
    ensures y % 400 == 0 ==> y % 100 == 0
  {
    var q := y / 400;
    assert y == 100 * (4 * q) + y % 400;
  }

  lemma {:induction false} MonthsFollow(k: nat, l: nat)
    requires k < l
    ensures MonthStart(k) + MonthLength(k) <= MonthStart(l)
  {
    hide MonthLength;
    if k + 1 < l { MonthsFollow(k, l - 1); }
  }

  // ---- the local part: YYYY-MM-DDTHH:MM:SS ----

  predicate Shaped(p: string) {
    && |p| == 19
    && p[4] == '-' && p[7] == '-' && p[10] == 'T' && p[13] == ':' && p[16] == ':'
    && IsDigits(p[..4]) && IsDigits(p[5..7]) && IsDigits(p[8..10])
    && IsDigits(p[11..13]) && IsDigits(p[14..16]) && IsDigits(p[17..])
  }

  function Month(p: string): int
    requires Shaped(p)
  {
    12 * Num(p[..4]) + Num(p[5..7]) - 1
  }

  predicate Local(p: string) {
    && Shaped(p)
    && 1 <= Num(p[..4]) && 1 <= Num(p[5..7]) <= 12
    && 1 <= Num(p[8..10]) <= MonthLength(Month(p))
    && Num(p[11..13]) < 24 && Num(p[14..16]) < 60 && Num(p[17..]) < 60
  }

  function Days(p: string): int
    requires Local(p)
  {
    MonthStart(Month(p)) + Num(p[8..10]) - 1
  }

  function Minutes(p: string): int
    requires Local(p)
  {
    60 * (24 * Days(p) + Num(p[11..13])) + Num(p[14..16])
  }

  function Seconds(p: string): int
    requires Local(p)
  {
    60 * Minutes(p) + Num(p[17..])
  }

  lemma FieldAgrees(p: string, q: string, i: nat, j: nat)
    requires i < j <= |p| && j <= |q| && p[i] == q[i] && IsDigits(p[i + 1..j]) && IsDigits(q[i + 1..j])
    ensures Agree(p[i..j], q[i..j], Num(p[i + 1..j]), Num(q[i + 1..j]))
  {
    hide Leq;
    DigitsAgree(p[i + 1..j], q[i + 1..j]);
    Same([p[i]]);
    assert p[i..j] == [p[i]] + p[i + 1..j] && q[i..j] == [q[i]] + q[i + 1..j];
    var u, v := Num(p[i + 1..j]), Num(q[i + 1..j]);
    Extend([p[i]], [q[i]], 0, 0, p[i + 1..j], q[i + 1..j], u, v, u, v);
  }

  /** One more field: a number read so far and a field with its separator. */
  lemma NextField(p: string, q: string, i: nat, j: nat, x: int, y: int, x': int, y': int)
    requires i < j <= |p| && j <= |q| && p[i] == q[i] && IsDigits(p[i + 1..j]) && IsDigits(q[i + 1..j])
    requires Agree(p[..i], q[..i], x, y)
    requires var u, v := Num(p[i + 1..j]), Num(q[i + 1..j]);
             && (x' <= y' <==> x < y || (x == y && u <= v))
             && (y' <= x' <==> y < x || (x == y && v <= u))
    ensures Agree(p[..j], q[..j], x', y')
  {
    hide Leq, Agree;
    FieldAgrees(p, q, i, j);
    assert p[..j] == p[..i] + p[i..j] && q[..j] == q[..i] + q[i..j];
    Extend(p[..i], q[..i], x, y, p[i..j], q[i..j], Num(p[i + 1..j]), Num(q[i + 1..j]), x', y');
  }

  lemma MonthAgrees(p: string, q: string)
    requires Local(p) && Local(q)
    ensures Agree(p[..7], q[..7], Month(p), Month(q))
  {
    hide Leq, Agree, MonthLength, Num;
    DigitsAgree(p[..4], q[..4]);
    NextField(p, q, 4, 7, Num(p[..4]), Num(q[..4]), Month(p), Month(q));
  }

  lemma LaterMonth(p: string, q: string)
    requires Local(p) && Local(q) && Month(p) < Month(q)
    ensures Days(p) < Days(q)
  {
    hide MonthLength, Num, MonthStart;
    MonthsFollow(Month(p), Month(q));
  }

  lemma DaysAgree(p: string, q: string)
    requires Local(p) && Local(q)
    ensures Agree(p[..10], q[..10], Days(p), Days(q))
  {
    hide Leq, Agree, MonthLength, Num, MonthStart, Month;
    MonthAgrees(p, q);
    if Month(p) < Month(q) { LaterMonth(p, q); }
    if Month(q) < Month(p) { LaterMonth(q, p); }
    NextField(p, q, 7, 10, Month(p), Month(q), Days(p), Days(q));
  }

  lemma MinutesAgree(p: string, q: string)
    requires Local(p) && Local(q)
    ensures Agree(p[..16], q[..16], Minutes(p), Minutes(q))
  {
    hide Leq, Agree, MonthLength, Num, Days, Month;
    DaysAgree(p, q);
    var x, y := 24 * Days(p) + Num(p[11..13]), 24 * Days(q) + Num(q[11..13]);
    NextField(p, q, 10, 13, Days(p), Days(q), x, y);
    NextField(p, q, 13, 16, x, y, Minutes(p), Minutes(q));
  }

  lemma SecondsAgree(p: string, q: string)
    requires Local(p) && Local(q)
    ensures Agree(p, q, Seconds(p), Seconds(q))
  {
    hide Leq, Agree, MonthLength, Num, Minutes, Month;
    MinutesAgree(p, q);
    assert p[17..19] == p[17..] && q[17..19] == q[17..] && p[..19] == p && q[..19] == q;
    NextField(p, q, 16, 19, Minutes(p), Minutes(q), Seconds(p), Seconds(q));
  }

  // ---- fraction and zone ----

  /** The fraction of a second, which is written only if it is not zero. */
  predicate Fraction(f: string) {
    f == "" || (|f| == 7 && f[0] == '.' && IsDigits(f[1..]) && Num(f[1..]) > 0)
  }

  function Micros(f: string): nat
    requires Fraction(f)
  {
    if f == "" then 0 else Num(f[1..])
  }

  /** An offset such as `+05:30`; a zero offset is written `+00:00`. */
  predicate Zone(z: string) {
    && |z| == 6 && z[0] in {'+', '-'} && z[3] == ':'
    && IsDigits(z[1..3]) && IsDigits(z[4..])
    && Num(z[1..3]) < 24 && Num(z[4..]) < 60
    && (z[0] == '-' ==> Num(z[1..3]) + Num(z[4..]) > 0)
  }

  function Offset(z: string): int
    requires Zone(z)
  {
    var n := 60 * Num(z[1..3]) + Num(z[4..]);
    if z[0] == '+' then n else -n
  }

  predicate Stamp(t: string) {
    && |t| >= 25
    && Local(t[..19]) && Fraction(t[19..|t| - 6]) && Zone(t[|t| - 6..])
  }

  function ZoneOf(t: string): string
    requires Stamp(t)
  {
    t[|t| - 6..]
  }

  /** Microseconds since year zero began in UTC, proleptic Gregorian calendar. */
  function Instant(t: string): int
    requires Stamp(t)
  {
    1000000 * (Seconds(t[..19]) - 60 * Offset(ZoneOf(t))) + Micros(t[19..|t| - 6])
  }

  function Pow10(n: nat): nat {
    if n == 0 then 1 else 10 * Pow10(n - 1)
  }

  lemma {:induction false} NumIsBounded(s: string)
    requires IsDigits(s)
    ensures Num(s) < Pow10(|s|)
  {
    if s != "" { NumIsBounded(s[..|s| - 1]); }
  }

  lemma MicrosAreBounded(f: string)
    requires Fraction(f)
    ensures Micros(f) < 1000000
  {
    if f != "" {
      NumIsBounded(f[1..]);
      assert Pow10(6) == 1000000;
    }
  }

  /** A whole second sorts before every fraction of it, as `+` and `-` precede the point. */
  lemma TailsAgree(f: string, g: string, z: string)
    requires Fraction(f) && Fraction(g) && Zone(z)
    ensures Agree(f + z, g + z, Micros(f), Micros(g))
  {
    hide Num;
    if f == g {
      LeqReflexive(f + z);
    } else if f != "" && g != "" {
      Same(z);
      assert f[0..7] == f && g[0..7] == g && f[1..7] == f[1..] && g[1..7] == g[1..];
      FieldAgrees(f, g, 0, 7);
      Extend(f, g, Micros(f), Micros(g), z, z, 0, 0, Micros(f), Micros(g));
    } else {
      assert "" + z == z;
    }
  }

  /** Within one zone, text order is time order. */
  lemma StampsAgree(a: string, b: string)
    requires Stamp(a) && Stamp(b) && ZoneOf(a) == ZoneOf(b)
    ensures Agree(a, b, Instant(a), Instant(b))
  {
    hide Leq, Agree, Local, Seconds, Zone, Offset, Num, IsDigits;
    var p, q, f, g, z := a[..19], b[..19], a[19..|a| - 6], b[19..|b| - 6], ZoneOf(a);
    SecondsAgree(p, q);
    TailsAgree(f, g, z);
    MicrosAreBounded(f);
    MicrosAreBounded(g);
    assert a == p + (f + z) && b == q + (g + z);
    Extend(p, q, Seconds(p), Seconds(q), f + z, g + z, Micros(f), Micros(g), Instant(a), Instant(b));
  }

  // ---- two zones ----

  lemma {:induction false} FirstDifference(s: string, t: string, i: nat)
    requires i < |s| && i < |t| && s[..i] == t[..i] && s[i] < t[i]
    ensures Leq(s, t) && !Leq(t, s)
  {
    if i > 0 {
      assert s[0] == s[..i][0] == t[..i][0] == t[0];
      assert s[1..][..i - 1] == s[..i][1..] == t[..i][1..] == t[1..][..i - 1];
      FirstDifference(s[1..], t[1..], i - 1);
    }
  }

  lemma NumDetermines(s: string, t: string)
    requires |s| == |t| && IsDigits(s) && IsDigits(t) && Num(s) == Num(t)
    ensures s == t
  {
    hide Leq, Num;
    DigitsAgree(s, t);
    AgreeOnEqual(s, t, Num(s), Num(t));
  }

  lemma OffsetDetermines(y: string, z: string)
    requires Zone(y) && Zone(z) && Offset(y) == Offset(z)
    ensures y == z
  {
    hide Num;
    assert y[0] == z[0] && Num(y[1..3]) == Num(z[1..3]) && Num(y[4..]) == Num(z[4..]);
    NumDetermines(y[1..3], z[1..3]);
    NumDetermines(y[4..], z[4..]);
    assert y == [y[0]] + y[1..3] + [':'] + y[4..] && z == [z[0]] + z[1..3] + [':'] + z[4..];
  }

  const MIDNIGHT := "2024-01-01T00:00:00"
  const SECOND_LATER := "2024-01-01T00:00:01"

  lemma TwoDigits(s: string, i: nat, x: nat, y: nat)
    requires i + 2 <= |s| && '0' <= s[i] <= '9' && '0' <= s[i + 1] <= '9'
    requires (s[i] - '0') as int == x && (s[i + 1] - '0') as int == y
    ensures IsDigits(s[i..i + 2]) && Num(s[i..i + 2]) == 10 * x + y
  {
    var d := s[i..i + 2];
    assert d[0] == s[i] && d[1] == s[i + 1];
    var t := d[..1];
    assert t[..0] == "" && t[0] == s[i];
    assert Num(t) == x;
  }

  lemma {:induction false} LeadingDigit(s: string)
    requires IsDigits(s) && s != "" && s[0] > '0'
    ensures Num(s) > 0
  {
    if |s| > 1 { LeadingDigit(s[..|s| - 1]); }
  }

  lemma YearOf2024(p: string)
    requires |p| >= 4 && p[0] == '2' && p[1] == '0' && p[2] == '2' && p[3] == '4'
    ensures IsDigits(p[..4]) && Num(p[..4]) > 0
  {
    hide Num;
    var y := p[..4];
    assert y[0] == '2' && y[1] == '0' && y[2] == '2' && y[3] == '4';
    LeadingDigit(y);
  }

  ghost predicate StartsTheYear(p: string) {
    && |p| == 19
    && p[0] == '2' && p[1] == '0' && p[2] == '2' && p[3] == '4' && p[4] == '-'
    && p[5] == '0' && p[6] == '1' && p[7] == '-' && p[8] == '0' && p[9] == '1' && p[10] == 'T'
    && p[11] == '0' && p[12] == '0' && p[13] == ':' && p[14] == '0' && p[15] == '0' && p[16] == ':'
    && p[17] == '0' && '0' <= p[18] <= '9'
  }

  lemma NewYear(p: string)
    requires StartsTheYear(p)
    ensures Local(p) && Num(p[5..7]) == 1 && Num(p[8..10]) == 1 && Num(p[11..13]) == 0
    ensures Num(p[14..16]) == 0 && Num(p[17..]) == (p[18] - '0') as int
  {
    hide MonthLength, Num, IsDigits;
    YearOf2024(p);
    TwoDigits(p, 5, 0, 1);
    TwoDigits(p, 8, 0, 1);
    TwoDigits(p, 11, 0, 0);
    TwoDigits(p, 14, 0, 0);
    TwoDigits(p, 17, 0, (p[18] - '0') as int);
    assert p[17..] == p[17..19];
  }

  lemma OneSecondApart()
    ensures Local(MIDNIGHT) && Local(SECOND_LATER)
    ensures Seconds(SECOND_LATER) == Seconds(MIDNIGHT) + 1
  {
    hide MonthLength, MonthStart, Num, Local;
    var p, q := MIDNIGHT, SECOND_LATER;
    assert p[..18] == q[..18];
    NewYear(p);
    NewYear(q);
    assert p[..4] == p[..18][..4] == q[..18][..4] == q[..4];
  }

  /** In the zone further east the same clock reading is earlier, by a minute at least:
      so a stamp that sorts after another may well be older. */
  lemma EasterlyStampIsOlder(y: string, z: string)
    requires Zone(y) && Zone(z) && Offset(y) < Offset(z)
    ensures var a, b := MIDNIGHT + y, SECOND_LATER + z;
            && Stamp(a) && Stamp(b) && ZoneOf(a) == y && ZoneOf(b) == z
            && Leq(a, b) && !Leq(b, a) && Instant(b) < Instant(a)
  {
    hide Local, Seconds, Zone, Offset, Num;
    OneSecondApart();
    var a, b := MIDNIGHT + y, SECOND_LATER + z;
    assert |y| == 6 && |z| == 6 by { ZoneLength(y); ZoneLength(z); }
    assert a[..19] == MIDNIGHT && a[19..] == y && a[19..|a| - 6] == "";
    assert b[..19] == SECOND_LATER && b[19..] == z && b[19..|b| - 6] == "";
    assert a[..18] == MIDNIGHT[..18] == SECOND_LATER[..18] == b[..18];
    assert Stamp(a) && Stamp(b) && ZoneOf(a) == y && ZoneOf(b) == z;
    FirstDifference(a, b, 18);
  }

  lemma ZoneLength(z: string)
    requires Zone(z)
    ensures |z| == 6
  {
  }
}

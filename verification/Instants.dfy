/**
 Instants and the text SQLite stores for them: formatTime, parseTime and the
 comparisons of formatted strings that the query filters rely on.
 */
module Instants {
  import opened Wrappers
  import opened Text

  /** A UTC instant as calendar fields. Go's years are not limited to four digits. */
  datatype Civil = Civil(year: int, month: int, day: int, hour: int, minute: int, second: int, nano: int)

  predicate IsLeap(year: int) {
    year % 4 == 0 && (year % 100 != 0 || year % 400 == 0)
  }

  function DaysIn(year: int, month: int): int {
    if month == 2 then (if IsLeap(year) then 29 else 28)
    else if month == 4 || month == 6 || month == 9 || month == 11 then 30
    else 31
  }

  predicate ValidCivil(c: Civil) {
    && 1 <= c.month <= 12 && 1 <= c.day <= DaysIn(c.year, c.month)
    && 0 <= c.hour < 24 && 0 <= c.minute < 60 && 0 <= c.second < 60
    && 0 <= c.nano < 1_000_000_000
  }

  type Instant = c: Civil | ValidCivil(c) witness Civil(1, 1, 1, 0, 0, 0, 0)

  /** Go's zero time, the value for which IsZero holds. */
  const ZERO: Instant := Civil(1, 1, 1, 0, 0, 0, 0)

  /** The years RFC 3339 can write (section 5.6: a four-digit year). */
  predicate FourDigitYear(t: Instant) {
    0 <= t.year <= 9999
  }

  // ----- time order -----

  predicate SameSecond(a: Instant, b: Instant) {
    a.(nano := 0) == b.(nano := 0)
  }

  /** a is strictly earlier than b: calendar fields compared from the year down. */
  predicate Before(a: Instant, b: Instant) {
    if a.year != b.year then a.year < b.year
    else if a.month != b.month then a.month < b.month
    else if a.day != b.day then a.day < b.day
    else if a.hour != b.hour then a.hour < b.hour
    else if a.minute != b.minute then a.minute < b.minute
    else if a.second != b.second then a.second < b.second
    else a.nano < b.nano
  }

  // ----- formatTime: RFC3339Nano in UTC -----

  function FormatYear(year: int): string {
    if year < 0 then "-" + PadFour(-year) else PadFour(year)
  }

  function PadFour(n: nat): string {
    if n < 10_000 then Fixed(n, 4) else Digits(n)
  }

  function TrimZeros(s: string): (r: string)
    ensures |r| <= |s|
  {
    if s == "" || s[|s| - 1] != '0' then s else TrimZeros(s[..|s| - 1])
  }

  /** The fraction of a second with its trailing zeros dropped. */
  function Fraction(nano: nat): string {
    TrimZeros(Fixed(nano, 9))
  }

  function FormatFraction(nano: nat): string {
    if Fraction(nano) == "" then "" else "." + Fraction(nano)
  }

  function FormatClock(t: Instant): string {
    "-" + (Fixed(t.month, 2) + ("-" + (Fixed(t.day, 2) + ("T" + (Fixed(t.hour, 2) + (":" +
    (Fixed(t.minute, 2) + (":" + (Fixed(t.second, 2) + (FormatFraction(t.nano) + "Z"))))))))))
  }

  function FormatTime(t: Instant): string {
    FormatYear(t.year) + FormatClock(t)
  }

  // ----- parseTime, for text that ends in "Z" -----

  function ParseFraction(s: string): Option<nat> {
    if s == "" then Some(0)
    else if |s| >= 2 && (s[0] == '.' || s[0] == ',') && AllDigits(s[1..]) then
      var digits := if |s| > 10 then s[1..10] else s[1..];
      Some(Value(digits) * Pow10(9 - |digits|))
    else None
  }

  predicate HasTimeShape(s: string) {
    && |s| >= 20
    && AllDigits(s[0..4]) && s[4] == '-' && AllDigits(s[5..7]) && s[7] == '-' && AllDigits(s[8..10])
    && s[10] == 'T' && AllDigits(s[11..13]) && s[13] == ':' && AllDigits(s[14..16]) && s[16] == ':'
    && AllDigits(s[17..19]) && s[|s| - 1] == 'Z'
  }

  function ParseTime(s: string): Option<Instant> {
    if !HasTimeShape(s) then None else
      match ParseFraction(s[19..|s| - 1])
      case None => None
      case Some(nano) =>
        var c := Civil(Value(s[0..4]), Value(s[5..7]), Value(s[8..10]),
                       Value(s[11..13]), Value(s[14..16]), Value(s[17..19]), nano);
        if ValidCivil(c) then Some(c) else None
  }

  // ----- the fraction -----

  function Zeros(k: nat): (s: string)
    ensures |s| == k && AllDigits(s) && forall i :: 0 <= i < k ==> s[i] == '0'
  {
    seq(k, _ => '0')
  }

  lemma {:induction false} TrimZerosRestores(s: string)
    requires AllDigits(s)
    ensures var r := TrimZeros(s); AllDigits(r) && s == r + Zeros(|s| - |r|) && (r != "" ==> r[|r| - 1] != '0')
    decreases |s|
  {
    if s != "" && s[|s| - 1] == '0' {
      TrimZerosRestores(s[..|s| - 1]);
      var r := TrimZeros(s);
      assert s == s[..|s| - 1] + ['0'];
      assert Zeros(|s| - |r|) == Zeros(|s| - 1 - |r|) + ['0'];
    } else {
      assert s == s + Zeros(0);
    }
  }

  lemma {:induction false} ValueOfZeros(k: nat)
    ensures Value(Zeros(k)) == 0
    decreases k
  {
    if k > 0 {
      ValueOfZeros(k - 1);
      assert Zeros(k)[..k - 1] == Zeros(k - 1);
    }
  }

  lemma NanoBelowPow9(nano: nat)
    requires nano < 1_000_000_000
    ensures nano < Pow10(9)
  {
    assert Pow10(3) == 1000;
    assert Pow10(6) == 1000 * Pow10(3);
    assert Pow10(9) == 1000 * Pow10(6);
  }

  lemma LastDigitCounts(s: string)
    requires AllDigits(s)
    ensures Value("") == 0
    ensures s != "" && s[|s| - 1] != '0' ==> Value(s) > 0
  {
  }

  lemma TrimmedNumeral(n: nat, w: nat)
    requires n < Pow10(w)
    ensures var f := TrimZeros(Fixed(n, w));
            && |f| <= w && AllDigits(f) && Fixed(n, w) == f + Zeros(w - |f|)
            && Value(f) * Pow10(w - |f|) == n
            && (f != "" ==> f[|f| - 1] != '0') && (f == "" <==> n == 0)
  {
    hide TrimZeros, Fixed, Value, Pow10, Zeros;
    var f := TrimZeros(Fixed(n, w));
    TrimZerosRestores(Fixed(n, w));
    ValueOfConcat(f, Zeros(w - |f|));
    ValueOfZeros(w - |f|);
    ValueOfFixed(n, w);
    LastDigitCounts(f);
    ProductSign(Value(f), Pow10(w - |f|));
  }

  lemma ProductSign(x: nat, y: nat)
    ensures y > 0 ==> (x * y == 0 <==> x == 0)
  {
  }

  lemma FractionRestores(nano: nat)
    requires nano < 1_000_000_000
    ensures var f := Fraction(nano);
            && |f| <= 9 && AllDigits(f)
            && Value(f) * Pow10(9 - |f|) == nano
            && (f == "" <==> nano == 0)
  {
    NanoBelowPow9(nano);
    TrimmedNumeral(nano, 9);
  }

  lemma ParseFractionOfFormat(nano: nat)
    requires nano < 1_000_000_000
    ensures ParseFraction(FormatFraction(nano)) == Some(nano)
  {
    FractionRestores(nano);
    var f := Fraction(nano);
    if f != "" {
      var s := FormatFraction(nano);
      assert s[1..] == f;
      assert |s| > 10 ==> false;
    }
  }

  // ----- round trip -----

  lemma PowTwoFour()
    ensures Pow10(2) == 100 && Pow10(4) == 10_000
  {
    assert Pow10(1) == 10;
    assert Pow10(3) == 10 * Pow10(2);
  }

  /** Where each field sits in the text of a four-digit year. */
  lemma FormatLayout(t: Instant)
    requires FourDigitYear(t)
    ensures var s := FormatTime(t);
            && |s| == 20 + |FormatFraction(t.nano)|
            && s[0..4] == Fixed(t.year, 4) && s[4] == '-' && s[5..7] == Fixed(t.month, 2) && s[7] == '-'
            && s[8..10] == Fixed(t.day, 2) && s[10] == 'T' && s[11..13] == Fixed(t.hour, 2) && s[13] == ':'
            && s[14..16] == Fixed(t.minute, 2) && s[16] == ':' && s[17..19] == Fixed(t.second, 2)
            && s[19..|s| - 1] == FormatFraction(t.nano) && s[|s| - 1] == 'Z'
  {
    var s, end := FormatTime(t), FormatFraction(t.nano) + "Z";
    var fromHour := Fixed(t.hour, 2) + ([':'] + (Fixed(t.minute, 2) + ([':'] + (Fixed(t.second, 2) + end))));
    assert s == Fixed(t.year, 4) + (['-'] + (Fixed(t.month, 2) + (['-'] + (Fixed(t.day, 2) + (['T'] + fromHour)))));
    hide *;
    DateFields(s, Fixed(t.year, 4), Fixed(t.month, 2), Fixed(t.day, 2), fromHour);
    TimeFields(s, Fixed(t.hour, 2), Fixed(t.minute, 2), Fixed(t.second, 2), end);
    assert s[19..|s| - 1] == end[..|end| - 1];
  }

  lemma DateFields(s: string, year: string, month: string, day: string, rest: string)
    requires |year| == 4 && |month| == 2 && |day| == 2
    requires s == year + (['-'] + (month + (['-'] + (day + (['T'] + rest)))))
    ensures |s| == 11 + |rest| && s[0..4] == year && s[4] == '-' && s[5..7] == month && s[7] == '-'
    ensures s[8..10] == day && s[10] == 'T' && s[11..] == rest
  {
    assert s[0..] == s;
    NextField(s, 0, year, '-', month + (['-'] + (day + (['T'] + rest))));
    NextField(s, 5, month, '-', day + (['T'] + rest));
    NextField(s, 8, day, 'T', rest);
  }

  lemma TimeFields(s: string, hour: string, minute: string, second: string, end: string)
    requires |hour| == 2 && |minute| == 2 && |second| == 2 && |s| >= 11
    requires s[11..] == hour + ([':'] + (minute + ([':'] + (second + end))))
    ensures |s| == 19 + |end| && s[11..13] == hour && s[13] == ':' && s[14..16] == minute && s[16] == ':'
    ensures s[17..19] == second && s[19..] == end
  {
    NextField(s, 11, hour, ':', minute + ([':'] + (second + end)));
    NextField(s, 14, minute, ':', second + end);
    assert s[17..19] == s[17..][..2] && s[19..] == s[17..][2..];
  }

  lemma NextField(s: string, k: nat, field: string, c: char, rest: string)
    requires k <= |s| && s[k..] == field + ([c] + rest)
    ensures k + |field| < |s| && s[k..k + |field|] == field && s[k + |field|] == c && s[k + |field| + 1..] == rest
  {
    assert |s| == k + |s[k..]|;
    assert s[k..k + |field|] == s[k..][..|field|];
    assert s[k + |field|..] == s[k..][|field|..] == [c] + rest;
    assert s[k + |field| + 1..] == s[k + |field|..][1..];
  }

  /** parseTime undoes formatTime exactly for the years 0 to 9999. */
  lemma ParseTimeOfFormatTime(t: Instant)
    ensures ParseTime(FormatTime(t)) == if FourDigitYear(t) then Some(t) else None
  {
    hide FormatFraction, ParseFraction, Value;
    if FourDigitYear(t) {
      FormatLayout(t);
      PowTwoFour();
      ValueOfFixed(t.year, 4);
      ValueOfFixed(t.month, 2);
      ValueOfFixed(t.day, 2);
      ValueOfFixed(t.hour, 2);
      ValueOfFixed(t.minute, 2);
      ValueOfFixed(t.second, 2);
      ParseFractionOfFormat(t.nano);
    } else if t.year < 0 {
      assert FormatTime(t)[0..4][0] == '-';
    } else {
      LongYear(t.year);
      assert FormatTime(t)[4] == Digits(t.year)[4];
    }
  }

  lemma LongYear(n: nat)
    requires n >= 10_000
    ensures |Digits(n)| >= 5
  {
    assert n / 10 >= 1000 && n / 10 / 10 >= 100 && n / 10 / 10 / 10 >= 10;
    assert |Digits(n / 10 / 10 / 10)| >= 2;
    assert |Digits(n / 10 / 10)| >= 3;
    assert |Digits(n / 10)| >= 4;
  }

  // ----- string order against time order -----

  predicate ProperPrefix(a: string, b: string) {
    |a| < |b| && b[..|a|] == a
  }

  /** One trimmed fraction is a proper prefix of the other ("" is a prefix of every one). */
  predicate FractionsClash(n: nat, m: nat) {
    ProperPrefix(Fraction(n), Fraction(m)) || ProperPrefix(Fraction(m), Fraction(n))
  }

  lemma {:induction false} FirstDifference(f: string, g: string) returns (k: nat)
    requires f != g && !ProperPrefix(f, g) && !ProperPrefix(g, f)
    ensures k < |f| && k < |g| && f[..k] == g[..k] && f[k] != g[k]
    decreases |f|
  {
    if f[0] != g[0] {
      k := 0;
    } else {
      assert f == [f[0]] + f[1..] && g == [g[0]] + g[1..];
      var j := FirstDifference(f[1..], g[1..]);
      k := j + 1;
      assert f[..k] == [f[0]] + f[1..][..j] && g[..k] == [g[0]] + g[1..][..j];
    }
  }

  /** After the first difference nothing matters. */
  lemma PrecedesAtDifference(f: string, g: string, k: nat, x: string, y: string)
    requires k < |f| && k < |g| && f[..k] == g[..k] && f[k] != g[k]
    ensures Precedes(f + x, g + y) <==> f[k] < g[k]
  {
    assert f + x == f[..k] + (f[k..] + x) && g + y == g[..k] + (g[k..] + y);
    PrecedesByBlocks(f[..k], g[..k], f[k..] + x, g[k..] + y);
    PrecedesTotal(f[..k], g[..k]);
    assert (f[k..] + x)[0] == f[k] && (g[k..] + y)[0] == g[k];
  }

  lemma {:induction false} ZerosPrecede(s: string)
    requires AllDigits(s) && exists i :: 0 <= i < |s| && s[i] != '0'
    ensures Precedes(Zeros(|s|), s)
    decreases |s|
  {
    assert Zeros(|s|)[1..] == Zeros(|s| - 1);
    if s[0] == '0' {
      assert exists i :: 0 <= i < |s[1..]| && s[1..][i] != '0' by {
        var i :| 0 <= i < |s| && s[i] != '0';
        assert s[1..][i - 1] == s[i];
      }
      ZerosPrecede(s[1..]);
    }
  }

  lemma PaddedExtensionFollows(f: string, g: string, w: nat)
    requires ProperPrefix(f, g) && |g| <= w && AllDigits(g) && g[|g| - 1] != '0'
    ensures Precedes(f + Zeros(w - |f|), g + Zeros(w - |g|))
  {
    var rest := g[|f|..];
    var tail := rest + Zeros(w - |g|);
    assert g + Zeros(w - |g|) == f + tail;
    assert |tail| == w - |f| && tail[|rest| - 1] == g[|g| - 1];
    ZerosPrecede(tail);
    PrecedesByBlocks(f, f, Zeros(w - |f|), tail);
  }

  /** Of two numerals with trailing zeros trimmed, a proper extension is the larger number. */
  lemma ExtensionIsLarger(n: nat, m: nat, w: nat)
    requires n < Pow10(w) && m < Pow10(w)
    requires ProperPrefix(TrimZeros(Fixed(n, w)), TrimZeros(Fixed(m, w)))
    ensures n < m
  {
    hide Fixed, TrimZeros, Value, Pow10, Precedes, AllDigits;
    TrimmedNumeral(n, w);
    TrimmedNumeral(m, w);
    PaddedExtensionFollows(TrimZeros(Fixed(n, w)), TrimZeros(Fixed(m, w)), w);
    FixedOrder(n, m, w);
  }

  /** Two trimmed numerals of which neither extends the other are ordered as their texts. */
  lemma TrimmedOrder(n: nat, m: nat, w: nat, k: nat)
    requires n < Pow10(w) && m < Pow10(w)
    requires var f, g := TrimZeros(Fixed(n, w)), TrimZeros(Fixed(m, w));
             k < |f| && k < |g| && f[..k] == g[..k] && f[k] != g[k]
    ensures TrimZeros(Fixed(n, w))[k] < TrimZeros(Fixed(m, w))[k] <==> n < m
  {
    var f, g := TrimZeros(Fixed(n, w)), TrimZeros(Fixed(m, w));
    TrimmedNumeral(n, w);
    TrimmedNumeral(m, w);
    FixedOrder(n, m, w);
    PrecedesAtDifference(f, g, k, Zeros(w - |f|), Zeros(w - |g|));
  }

  /** A proper extension sorts before the shorter text, because '.' and digits sort before 'Z'. */
  lemma ExtensionSortsFirst(a: string, b: string)
    requires ProperPrefix(a, b) && b[|a|] < 'Z'
    ensures Precedes(b + "Z", a + "Z") && !Precedes(a + "Z", b + "Z")
  {
    var tail := b[|a|..] + "Z";
    assert b + "Z" == a + tail;
    PrecedesByBlocks(a, a, tail, "Z");
    PrecedesTotal(a + "Z", b + "Z");
    assert tail[0] == b[|a|];
  }

  lemma ClashReverses(n: nat, m: nat)
    requires n < 1_000_000_000 && m < 1_000_000_000
    requires ProperPrefix(Fraction(n), Fraction(m))
    ensures n < m
    ensures Precedes(FormatFraction(m) + "Z", FormatFraction(n) + "Z")
    ensures !Precedes(FormatFraction(n) + "Z", FormatFraction(m) + "Z")
  {
    var f, g := Fraction(n), Fraction(m);
    FractionRestores(m);
    NanoBelowPow9(n);
    NanoBelowPow9(m);
    ExtensionIsLarger(n, m, 9);
    var a, b := FormatFraction(n), FormatFraction(m);
    if f != "" {
      assert b[..|a|] == "." + g[..|f|];
      assert b[|a|] == g[|f|];
    }
    ExtensionSortsFirst(a, b);
  }

  /** Within one second the texts are in time order unless the fractions clash. */
  lemma FractionOrder(n: nat, m: nat)
    requires n < 1_000_000_000 && m < 1_000_000_000
    ensures (Precedes(FormatFraction(n) + "Z", FormatFraction(m) + "Z") <==> n < m) <==> !FractionsClash(n, m)
  {
    var f, g := Fraction(n), Fraction(m);
    if ProperPrefix(f, g) {
      ClashReverses(n, m);
    } else if ProperPrefix(g, f) {
      ClashReverses(m, n);
    } else if f == g {
      FractionRestores(n);
      FractionRestores(m);
      PrecedesTotal(FormatFraction(n) + "Z", FormatFraction(m) + "Z");
    } else {
      DistinctFractionOrder(n, m);
    }
  }

  lemma DistinctFractionOrder(n: nat, m: nat)
    requires n < 1_000_000_000 && m < 1_000_000_000
    requires Fraction(n) != Fraction(m) && !FractionsClash(n, m)
    ensures Precedes(FormatFraction(n) + "Z", FormatFraction(m) + "Z") <==> n < m
  {
    var f, g := Fraction(n), Fraction(m);
    NanoBelowPow9(n);
    NanoBelowPow9(m);
    var k := FirstDifference(f, g);
    TrimmedOrder(n, m, 9, k);
    DottedOrder(f, g, k);
  }

  lemma DottedOrder(f: string, g: string, k: nat)
    requires k < |f| && k < |g| && f[..k] == g[..k] && f[k] != g[k]
    ensures Precedes("." + f + "Z", "." + g + "Z") <==> f[k] < g[k]
  {
    var a, b := "." + f, "." + g;
    assert a[..k + 1] == "." + f[..k] && b[..k + 1] == "." + g[..k];
    PrecedesAtDifference(a, b, k + 1, "Z", "Z");
  }

  lemma FieldOrder(n: nat, m: nat, w: nat, c: char, x: string, y: string)
    requires n < Pow10(w) && m < Pow10(w)
    ensures Precedes(Fixed(n, w) + ([c] + x), Fixed(m, w) + ([c] + y)) <==> n < m || (n == m && Precedes(x, y))
  {
    FixedOrder(n, m, w);
    PrecedesByBlocks(Fixed(n, w), Fixed(m, w), [c] + x, [c] + y);
    PrecedesByBlocks([c], [c], x, y);
    PrecedesTotal([c], [c]);
  }

  lemma LastFieldOrder(n: nat, m: nat, x: string, y: string)
    requires n < 100 && m < 100
    ensures Precedes(Fixed(n, 2) + x, Fixed(m, 2) + y) <==> n < m || (n == m && Precedes(x, y))
  {
    PowTwoFour();
    FixedOrder(n, m, 2);
    PrecedesByBlocks(Fixed(n, 2), Fixed(m, 2), x, y);
  }

  lemma PairOrder(n: nat, m: nat, c: char, x: string, y: string)
    requires n < 100 && m < 100
    ensures Precedes(Fixed(n, 2) + ([c] + x), Fixed(m, 2) + ([c] + y)) <==> n < m || (n == m && Precedes(x, y))
  {
    PowTwoFour();
    FieldOrder(n, m, 2, c, x, y);
  }

  lemma YearOrder(n: nat, m: nat, x: string, y: string)
    requires n < 10_000 && m < 10_000
    ensures Precedes(FormatYear(n) + ("-" + x), FormatYear(m) + ("-" + y)) <==> n < m || (n == m && Precedes(x, y))
  {
    PowTwoFour();
    FieldOrder(n, m, 4, '-', x, y);
  }

  /** Precedes on the texts, field by field. */
  lemma FormatOrder(a: Instant, b: Instant)
    requires FourDigitYear(a) && FourDigitYear(b)
    ensures Precedes(FormatTime(a), FormatTime(b)) <==>
            if SameSecond(a, b) then Precedes(FormatFraction(a.nano) + "Z", FormatFraction(b.nano) + "Z")
                else Before(a, b)
  {
    var a6, b6 := FormatFraction(a.nano) + "Z", FormatFraction(b.nano) + "Z";
    LastFieldOrder(a.second, b.second, a6, b6);
    var a5, b5 := Fixed(a.second, 2) + a6, Fixed(b.second, 2) + b6;
    PairOrder(a.minute, b.minute, ':', a5, b5);
    var a4, b4 := Fixed(a.minute, 2) + (":" + a5), Fixed(b.minute, 2) + (":" + b5);
    PairOrder(a.hour, b.hour, ':', a4, b4);
    var a3, b3 := Fixed(a.hour, 2) + (":" + a4), Fixed(b.hour, 2) + (":" + b4);
    PairOrder(a.day, b.day, 'T', a3, b3);
    var a2, b2 := Fixed(a.day, 2) + ("T" + a3), Fixed(b.day, 2) + ("T" + b3);
    PairOrder(a.month, b.month, '-', a2, b2);
    var a1, b1 := Fixed(a.month, 2) + ("-" + a2), Fixed(b.month, 2) + ("-" + b2);
    YearOrder(a.year, b.year, a1, b1);
    assert FormatClock(a) == "-" + a1 && FormatClock(b) == "-" + b1;
  }

  /** String order is time order exactly when no fractions clash within one second. */
  lemma TextOrderIsTimeOrder(a: Instant, b: Instant)
    requires FourDigitYear(a) && FourDigitYear(b)
    ensures (Precedes(FormatTime(a), FormatTime(b)) <==> Before(a, b)) <==>
            !(SameSecond(a, b) && FractionsClash(a.nano, b.nano))
  {
    FormatOrder(a, b);
    if SameSecond(a, b) {
      FractionOrder(a.nano, b.nano);
    }
  }

  // ----- half-open filters -----

  /** occurred_at >= ? AND occurred_at < ? as SQLite evaluates it on the stored texts. */
  predicate TextInRange(t: Instant, start: Instant, end: Instant) {
    !Precedes(FormatTime(t), FormatTime(start)) && Precedes(FormatTime(t), FormatTime(end))
  }

  predicate TimeInRange(t: Instant, start: Instant, end: Instant) {
    !Before(t, start) && Before(t, end)
  }

  /** With whole-second bounds the filter is exact unless the row has a fraction within a bound's second. */
  lemma RangeFilterExact(t: Instant, start: Instant, end: Instant)
    requires FourDigitYear(t) && FourDigitYear(start) && FourDigitYear(end)
    requires start.nano == 0 && end.nano == 0 && Before(start, end)
    ensures (TextInRange(t, start, end) <==> TimeInRange(t, start, end)) <==>
            (t.nano == 0 || (!SameSecond(t, start) && !SameSecond(t, end)))
  {
    FractionRestores(t.nano);
    FractionRestores(0);
    assert FractionsClash(t.nano, 0) <==> t.nano != 0;
    TextOrderIsTimeOrder(t, start);
    TextOrderIsTimeOrder(t, end);
  }
}

/** Migration IDs and the registry that returns the discovered migrations in their order. */
module Migrations {
  import opened Text

  // ---------- string order ----------

  /** Go's < on strings. */
  predicate Less(a: string, b: string) {
    b != "" && (a == "" || a[0] < b[0] || (a[0] == b[0] && Less(a[1..], b[1..])))
  }

  lemma {:induction false} LessIsTotal(a: string, b: string)
    ensures a != b ==> (Less(a, b) <==> !Less(b, a))
    ensures !Less(a, a)
  {
    if a != "" && b != "" && a[0] == b[0] {
      LessIsTotal(a[1..], b[1..]);
      assert a == [a[0]] + a[1..] && b == [b[0]] + b[1..];
    }
    if a != "" { LessIsTotal(a[1..], a[1..]); }
  }

  lemma {:induction false} LessIsTransitive(a: string, b: string, c: string)
    requires !Less(b, a) && !Less(c, b)
    ensures !Less(c, a)
  {
    if a != "" && b != "" && c != "" && a[0] == b[0] == c[0] { LessIsTransitive(a[1..], b[1..], c[1..]); }
  }

  /** Strings of equal heads' lengths are ordered by their heads first. */
  lemma {:induction false} LessByHead(a: string, a': string, b: string, b': string)
    requires |a| == |b|
    ensures Less(a + a', b + b') <==> Less(a, b) || (a == b && Less(a', b'))
  {
    if a == "" {
      assert a + a' == a' && b + b' == b';
      LessIsTotal("", "");
    } else {
      LessByHead(a[1..], a', b[1..], b');
      assert (a + a')[1..] == a[1..] + a' && (b + b')[1..] == b[1..] + b';
      assert a == [a[0]] + a[1..] && b == [b[0]] + b[1..];
    }
  }

  // ---------- the generator's IDs ----------

  /** A time to the minute. */
  datatype Stamp = Stamp(year: nat, month: nat, day: nat, hour: nat, minute: nat)

  function Digit(n: nat): char
    requires n < 10
  {
    '0' + n as char
  }

  /** %d of a number that is not negative. */
  function Decimal(n: nat): string {
    if n < 10 then [Digit(n)] else Decimal(n / 10) + [Digit(n % 10)]
  }

  function DatePad(d: nat): string {
    if d < 10 then "0" + Decimal(d) else Decimal(d)
  }

  function Id(t: Stamp): string {
    Decimal(t.year) + DatePad(t.month) + DatePad(t.day) + DatePad(t.hour) + DatePad(t.minute)
  }

  /** The calendar gives every part but the year at most two digits. */
  predicate Calendar(t: Stamp) {
    t.month < 100 && t.day < 100 && t.hour < 100 && t.minute < 100
  }

  predicate Before(s: Stamp, t: Stamp) {
    if s.year != t.year then s.year < t.year
    else if s.month != t.month then s.month < t.month
    else if s.day != t.day then s.day < t.day
    else if s.hour != t.hour then s.hour < t.hour
    else s.minute < t.minute
  }

  function Power(k: nat): (p: nat)
    ensures p > 0
  {
    if k == 0 then 1 else 10 * Power(k - 1)
  }

  lemma DigitOrder(m: nat, n: nat)
    requires m < 10 && n < 10
    ensures (Less([Digit(m)], [Digit(n)]) <==> m < n) && ([Digit(m)] == [Digit(n)] <==> m == n)
  {
    assert [Digit(m)][0] == Digit(m) && [Digit(n)][0] == Digit(n) && [Digit(m)][1..] == [Digit(n)][1..] == "";
  }

  lemma LastDigitOrder(a: string, m: nat, b: string, n: nat)
    requires |a| == |b| && m < 10 && n < 10
    ensures var x, y := a + [Digit(m)], b + [Digit(n)];
            && |x| == |y|
            && (Less(x, y) <==> Less(a, b) || (a == b && m < n))
            && (x == y <==> a == b && m == n)
  {
    LessByHead(a, [Digit(m)], b, [Digit(n)]);
    DigitOrder(m, n);
    var x, y := a + [Digit(m)], b + [Digit(n)];
    assert x[..|a|] == a && y[..|b|] == b && x[|a|] == Digit(m) && y[|b|] == Digit(n);
  }

  /** The number is written with k digits. */
  predicate HasDigits(n: nat, k: nat) {
    k > 0 && n < Power(k) && (k == 1 || Power(k - 1) <= n)
  }

  lemma {:induction false} DecimalLength(n: nat)
    ensures HasDigits(n, |Decimal(n)|)
  {
    if n >= 10 {
      DecimalLength(n / 10);
      var k := |Decimal(n / 10)|;
      assert Power(k + 1) == 10 * Power(k) && Power(k) == 10 * Power(k - 1);
    }
  }

  lemma {:induction false} PowerGrows(j: nat, k: nat)
    requires j <= k
    ensures Power(j) <= Power(k)
  {
    if j < k { PowerGrows(j, k - 1); }
  }

  /** Numbers of equally many digits are ordered as their digits are. */
  lemma {:induction false} DecimalOrder(m: nat, n: nat, k: nat)
    requires HasDigits(m, k) && HasDigits(n, k)
    ensures |Decimal(m)| == |Decimal(n)|
    ensures (Less(Decimal(m), Decimal(n)) <==> m < n) && (Decimal(m) == Decimal(n) <==> m == n)
  {
    if k == 1 {
      DigitOrder(m, n);
    } else {
      assert Power(k - 1) == 10 * Power(k - 2) && Power(k) == 10 * Power(k - 1);
      DecimalOrder(m / 10, n / 10, k - 1);
      LastDigitOrder(Decimal(m / 10), m % 10, Decimal(n / 10), n % 10);
    }
  }

  lemma DatePadIsTwoDigits(n: nat)
    requires n < 100
    ensures DatePad(n) == [Digit(n / 10)] + [Digit(n % 10)]
  {
    if n < 10 {
      assert n / 10 == 0 && n % 10 == n && "0" == [Digit(0)];
    } else {
      assert Decimal(n / 10) == [Digit(n / 10)];
    }
  }

  lemma DatePadOrder(m: nat, n: nat)
    requires m < 100 && n < 100
    ensures |DatePad(m)| == |DatePad(n)|
    ensures (Less(DatePad(m), DatePad(n)) <==> m < n) && (DatePad(m) == DatePad(n) <==> m == n)
  {
    DatePadIsTwoDigits(m);
    DatePadIsTwoDigits(n);
    DigitOrder(m / 10, n / 10);
    LastDigitOrder([Digit(m / 10)], m % 10, [Digit(n / 10)], n % 10);
  }

  /** One more part: the order of the IDs so far and of the part decide. */
  lemma PartOrder(a: string, m: nat, b: string, n: nat)
    requires |a| == |b| && m < 100 && n < 100
    ensures |a + DatePad(m)| == |b + DatePad(n)|
    ensures Less(a + DatePad(m), b + DatePad(n)) <==> Less(a, b) || (a == b && m < n)
    ensures a + DatePad(m) == b + DatePad(n) <==> a == b && m == n
  {
    DatePadOrder(m, n);
    LessByHead(a, DatePad(m), b, DatePad(n));
    var x, y := a + DatePad(m), b + DatePad(n);
    assert x[..|a|] == a && y[..|b|] == b && x[|a|..] == DatePad(m) && y[|b|..] == DatePad(n);
  }

  // ---------- what an ID says ----------

  lemma {:induction false} ValueOfDecimal(n: nat)
    ensures Decimal(n) != "" && AllDigits(Decimal(n)) && DecimalValue(Decimal(n)) == n
  {
    if n < 10 {
      assert [Digit(n)] == "" + [Digit(n)];
      OneMoreDigit("", Digit(n));
    } else {
      ValueOfDecimal(n / 10);
      OneMoreDigit(Decimal(n / 10), Digit(n % 10));
    }
  }

  lemma TwoMoreDigits(s: string, n: nat)
    requires AllDigits(s) && n < 100
    ensures AllDigits(s + DatePad(n)) && DecimalValue(s + DatePad(n)) == 100 * DecimalValue(s) + n
    ensures |s + DatePad(n)| == |s| + 2
  {
    DatePadIsTwoDigits(n);
    OneMoreDigit(s, Digit(n / 10));
    OneMoreDigit(s + [Digit(n / 10)], Digit(n % 10));
    assert s + DatePad(n) == s + [Digit(n / 10)] + [Digit(n % 10)];
  }

  /** The ID is the number that has the year in front, and two digits each for month, day, hour and minute. */
  lemma IdIsNumber(t: Stamp)
    requires Calendar(t)
    ensures AllDigits(Id(t)) && |Id(t)| == |Decimal(t.year)| + 8
    ensures DecimalValue(Id(t)) ==
            1_0000_0000 * t.year + 100_0000 * t.month + 1_0000 * t.day + 100 * t.hour + t.minute
  {
    ValueOfDecimal(t.year);
    var year := Decimal(t.year);
    TwoMoreDigits(year, t.month);
    TwoMoreDigits(year + DatePad(t.month), t.day);
    TwoMoreDigits(year + DatePad(t.month) + DatePad(t.day), t.hour);
    TwoMoreDigits(year + DatePad(t.month) + DatePad(t.day) + DatePad(t.hour), t.minute);
  }

  /**
   * Generated IDs are ordered as the times are, to the minute, as long as the years have equally
   * many digits; the years 1000 to 9999 are those with k == 4.
   */
  lemma IdOrder(s: Stamp, t: Stamp, k: nat)
    requires Calendar(s) && Calendar(t)
    requires HasDigits(s.year, k) && HasDigits(t.year, k)
    ensures Less(Id(s), Id(t)) <==> Before(s, t)
    ensures Id(s) == Id(t) <==> s == t
  {
    DecimalOrder(s.year, t.year, k);
    var a1, b1 := Decimal(s.year), Decimal(t.year);
    PartOrder(a1, s.month, b1, t.month);
    var a2, b2 := a1 + DatePad(s.month), b1 + DatePad(t.month);
    PartOrder(a2, s.day, b2, t.day);
    var a3, b3 := a2 + DatePad(s.day), b2 + DatePad(t.day);
    PartOrder(a3, s.hour, b3, t.hour);
    var a4, b4 := a3 + DatePad(s.hour), b3 + DatePad(t.hour);
    PartOrder(a4, s.minute, b4, t.minute);
  }

  /** A number of k nines, and the next one. */
  lemma {:induction false} FirstDigits(k: nat)
    requires k > 0
    ensures Decimal(Power(k) - 1)[0] == '9' && Decimal(Power(k))[0] == '1'
  {
    assert Power(k) == 10 * Power(k - 1);
    if k > 1 {
      FirstDigits(k - 1);
      assert Power(k - 1) == 10 * Power(k - 2);
      assert (Power(k) - 1) / 10 == Power(k - 1) - 1 && Power(k) / 10 == Power(k - 1);
    } else {
      assert Power(0) == 1 && Decimal(9) == ['9'] && Decimal(1) == ['1'];
    }
  }

  /** New Year's Eve of the last year of k digits sorts behind the first minute of the next year. */
  lemma LongerYearSortsFirst(k: nat)
    requires k > 0
    ensures var s, t := Stamp(Power(k) - 1, 12, 31, 23, 59), Stamp(Power(k), 1, 1, 0, 0);
            Before(s, t) && Less(Id(t), Id(s))
  {
    var s, t := Stamp(Power(k) - 1, 12, 31, 23, 59), Stamp(Power(k), 1, 1, 0, 0);
    FirstDigits(k);
    assert Id(s)[0] == '9' && Id(t)[0] == '1';
  }

  /** Over a range of years the IDs are in the order of time. */
  ghost predicate OrderedOver(lo: nat, hi: nat) {
    forall s, t :: Calendar(s) && Calendar(t) && lo <= s.year <= hi && lo <= t.year <= hi ==>
      (Less(Id(s), Id(t)) <==> Before(s, t))
  }

  /** A range of years whose ends have different lengths goes over a power of ten. */
  lemma CrossesPower(lo: nat, hi: nat)
    requires lo <= hi && |Decimal(lo)| != |Decimal(hi)|
    ensures var k := |Decimal(lo)|; k > 0 && lo < Power(k) <= hi
  {
    var k, k' := |Decimal(lo)|, |Decimal(hi)|;
    DecimalLength(lo);
    DecimalLength(hi);
    if k' < k { PowerGrows(k', k - 1); } else { PowerGrows(k, k' - 1); }
  }

  lemma NotOrderedOverPower(lo: nat, hi: nat, k: nat)
    requires k > 0 && lo < Power(k) <= hi
    ensures !OrderedOver(lo, hi)
  {
    LongerYearSortsFirst(k);
    var s, t := Stamp(Power(k) - 1, 12, 31, 23, 59), Stamp(Power(k), 1, 1, 0, 0);
    LessIsTotal(Id(s), Id(t));
    assert lo <= s.year <= hi && lo <= t.year <= hi;
  }

  lemma DigitsBetween(lo: nat, n: nat, hi: nat)
    requires lo <= n <= hi && |Decimal(lo)| == |Decimal(hi)|
    ensures HasDigits(n, |Decimal(lo)|)
  {
    DecimalLength(lo);
    DecimalLength(hi);
  }

  /** The order of IDs is the order of time over a range of years if and only if its ends have equally many digits. */
  lemma OrderedIffEquallyLong(lo: nat, hi: nat)
    requires lo <= hi
    ensures OrderedOver(lo, hi) <==> |Decimal(lo)| == |Decimal(hi)|
  {
    if |Decimal(lo)| == |Decimal(hi)| {
      forall s, t | Calendar(s) && Calendar(t) && lo <= s.year <= hi && lo <= t.year <= hi
        ensures Less(Id(s), Id(t)) <==> Before(s, t)
      {
        DigitsBetween(lo, s.year, hi);
        DigitsBetween(lo, t.year, hi);
        IdOrder(s, t, |Decimal(lo)|);
      }
    } else {
      CrossesPower(lo, hi);
      NotOrderedOverPower(lo, hi, |Decimal(lo)|);
    }
  }
}

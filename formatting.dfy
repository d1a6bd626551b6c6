/** Human-readable sizes and durations, and the scoped timer TimeThis.

    localizedSize computes with doubles; the model computes the same two
    decimals exactly, as the number of hundredths floor(bytes * 100 / 1024^k).
    localizedTimeRemaining splits milliseconds into hours, minutes and
    seconds; its doubles hold 32-bit values exactly, so integer division is
    the same computation. */
module Formatting {
  import opened Common

  /** unsigned long long */
  type U64 = x: int | 0 <= x < 0x1_0000_0000_0000_0000
  /** unsigned int */
  type U32 = x: int | 0 <= x < 0x1_0000_0000

  // ---------------------------------------------------------------------------
  // localizedSize
  // ---------------------------------------------------------------------------

  /** 1024^k for the five units B, KB, MB, GB and TB. */
  function UnitSize(k: nat): (p: nat)
    requires k <= 4
    ensures p >= 1
  {
    if k == 0 then 1
    else if k == 1 then 0x400
    else if k == 2 then 0x10_0000
    else if k == 3 then 0x4000_0000
    else 0x100_0000_0000
  }

  /** The unit localizedSize picks: 0 (B) below 1024, otherwise the largest k
      with 1024^k <= bytes, capped at 4 (TB). */
  function UnitIndex(bytes: nat): (k: nat)
    ensures k <= 4
    ensures k == 0 <==> bytes < UnitSize(1)
    ensures UnitSize(k) <= bytes || k == 0
    ensures k < 4 ==> bytes < UnitSize(k + 1)
  {
    if bytes < UnitSize(1) then 0
    else if bytes < UnitSize(2) then 1
    else if bytes < UnitSize(3) then 2
    else if bytes < UnitSize(4) then 3
    else 4
  }

  /** The value in unit k, truncated to hundredths. */
  function Hundredths(bytes: nat, k: nat): nat
    requires k <= 4
  {
    if k == 0 then bytes * 100
    else if k == 1 then bytes * 100 / 0x400
    else if k == 2 then bytes * 100 / 0x10_0000
    else if k == 3 then bytes * 100 / 0x4000_0000
    else bytes * 100 / 0x100_0000_0000
  }

  /** Truncation: the hundredths shown are the largest that do not exceed the
      exact value bytes / 1024^k. */
  lemma HundredthsTruncate(bytes: nat, k: nat)
    requires k <= 4
    ensures Hundredths(bytes, k) * UnitSize(k) <= bytes * 100 < (Hundredths(bytes, k) + 1) * UnitSize(k)
  {
  }

  /** A number of hundredths as "<integer part>.<two digits>". */
  function TwoDecimals(h: nat): string {
    Decimal(h / 100) + "." + Pad2(h % 100)
  }

  /** The two decimals read back: the digits before the '.' are h / 100 and
      the exactly two digits after it are h % 100. */
  lemma TwoDecimalsRoundTrip(h: nat)
    ensures var r := TwoDecimals(h); var dot := FirstIndex(r, '.');
      dot == |r| - 3 && FromBase(r[..dot], 10) == h / 100 && FromBase(r[dot + 1..], 10) == h % 100
  {
    var ip := Decimal(h / 100);
    var fp := Pad2(h % 100);
    var r := ip + "." + fp;
    assert r == ip + ['.'] + fp;
    DecimalSeparatorFree(h / 100);
    FirstIndexAfter(ip, '.', fp);
    assert r[..|ip|] == ip && r[|ip| + 1..] == fp;
    DecimalOfNat(h / 100);
    Pad2RoundTrip(h % 100);
    Pad2Length(h % 100);
  }

  /** QString::arg: every "%1" in the template replaced by the value. */
  function Arg(template: string, value: string): string
    decreases |template|
  {
    if |template| < 2 then template
    else if template[..2] == "%1" then value + Arg(template[2..], value)
    else [template[0]] + Arg(template[1..], value)
  }

  /** The five translated templates, such as "%1 B" ... "%1 TB". */
  datatype SizeUnits = SizeUnits(b: string, kb: string, mb: string, gb: string, tb: string) {
    function Template(k: nat): string {
      if k == 0 then b else if k == 1 then kb else if k == 2 then mb else if k == 3 then gb else tb
    }
  }

  function LocalizedSize(bytes: U64, units: SizeUnits): string {
    if bytes < 1024 then Arg(units.b, Decimal(bytes))
    else
      var k := UnitIndex(bytes);
      Arg(units.Template(k), TwoDecimals(Hundredths(bytes, k)))
  }

  const ByteUnits := SizeUnits("%1 B", "%1 KB", "%1 MB", "%1 GB", "%1 TB")
  const SpeedUnits := SizeUnits("%1 B/s", "%1 KB/s", "%1 MB/s", "%1 GB/s", "%1 TB/s")

  function UnitName(k: nat): string {
    if k == 0 then "B" else if k == 1 then "KB" else if k == 2 then "MB" else if k == 3 then "GB" else "TB"
  }

  /** localizedByteSize with the untranslated templates. */
  function LocalizedByteSize(bytes: U64): string {
    LocalizedSize(bytes, ByteUnits)
  }

  /** localizedByteSpeed with the untranslated templates. */
  function LocalizedByteSpeed(bps: U64): string {
    LocalizedSize(bps, SpeedUnits)
  }

  lemma ArgUnitTemplate(value: string, name: string)
    requires '%' !in name
    ensures Arg("%1 " + name, value) == value + " " + name
  {
    var t := "%1 " + name;
    assert t[..2] == "%1";
    assert t[2..] == " " + name;
    ArgNoPlaceholder(" " + name, value);
  }

  lemma {:induction false} ArgNoPlaceholder(t: string, value: string)
    requires '%' !in t
    ensures Arg(t, value) == t
    decreases |t|
  {
    if |t| >= 2 {
      assert t[0] != '%';
      ArgNoPlaceholder(t[1..], value);
    }
  }

  /** localizedByteSize in full: below 1024 the plain count of bytes,
      otherwise the hundredths in the unit UnitIndex picks, with two decimals
      and the unit's name. */
  lemma LocalizedByteSizeText(bytes: U64)
    ensures bytes < 1024 ==> LocalizedByteSize(bytes) == Decimal(bytes) + " B"
    ensures bytes >= 1024 ==>
      LocalizedByteSize(bytes) == TwoDecimals(Hundredths(bytes, UnitIndex(bytes))) + " " + UnitName(UnitIndex(bytes))
  {
    var k := UnitIndex(bytes);
    assert ByteUnits.Template(k) == "%1 " + UnitName(k);
    if bytes < 1024 {
      ArgUnitTemplate(Decimal(bytes), "B");
    } else {
      ArgUnitTemplate(TwoDecimals(Hundredths(bytes, k)), UnitName(k));
    }
  }

  /** localizedByteSpeed in full: the text of localizedByteSize for the same
      count with "/s" after the unit's name. */
  lemma LocalizedByteSpeedText(bps: U64)
    ensures bps < 1024 ==> LocalizedByteSpeed(bps) == Decimal(bps) + " B/s"
    ensures bps >= 1024 ==>
      LocalizedByteSpeed(bps) == TwoDecimals(Hundredths(bps, UnitIndex(bps))) + " " + UnitName(UnitIndex(bps)) + "/s"
    ensures LocalizedByteSpeed(bps) == LocalizedByteSize(bps) + "/s"
  {
    LocalizedSizeArg(bps, SpeedUnits);
    LocalizedSizeArg(bps, ByteUnits);
    SpeedArg(UnitIndex(bps), SizeValue(bps));
    LocalizedByteSizeText(bps);
  }

  /** Filling a speed template gives the filled size template and "/s". */
  lemma SpeedArg(k: nat, value: string)
    ensures Arg(SpeedUnits.Template(k), value) == value + " " + UnitName(k) + "/s"
    ensures Arg(SpeedUnits.Template(k), value) == Arg(ByteUnits.Template(k), value) + "/s"
  {
    SpeedTemplate(k);
    ArgUnitTemplate(value, UnitName(k) + "/s");
    ByteTemplate(k);
    ArgUnitTemplate(value, UnitName(k));
  }

  /** The number localizedSize writes into the template. */
  function SizeValue(bytes: nat): string {
    if bytes < 1024 then Decimal(bytes) else TwoDecimals(Hundredths(bytes, UnitIndex(bytes)))
  }

  /** Both branches of localizedSize fill the template of the unit UnitIndex picks. */
  lemma LocalizedSizeArg(bytes: U64, units: SizeUnits)
    ensures LocalizedSize(bytes, units) == Arg(units.Template(UnitIndex(bytes)), SizeValue(bytes))
  {
  }

  /** The size templates are "%1 " and the unit's name, which carries no
      other placeholder. */
  lemma ByteTemplate(k: nat)
    ensures ByteUnits.Template(k) == "%1 " + UnitName(k)
    ensures '%' !in UnitName(k)
  {
  }

  /** The speed templates are the size templates with "/s", and carry no
      other placeholder. */
  lemma SpeedTemplate(k: nat)
    ensures SpeedUnits.Template(k) == "%1 " + (UnitName(k) + "/s")
    ensures '%' !in UnitName(k) + "/s"
  {
  }

  /** 2048 bytes per second. */
  lemma LocalizedByteSpeed2048()
    ensures LocalizedByteSpeed(2048) == "2.00 KB/s"
  {
    LocalizedByteSpeedText(2048);
    LocalizedByteSize2048();
  }

  /** Below TB the integer part never reaches 1024: the truncation keeps
      1048575 bytes at "1023.99 KB" instead of rounding it to "1024.00 KB". */
  lemma IntegerPartBelow1024(bytes: U64)
    requires 1024 <= bytes
    requires UnitIndex(bytes) < 4
    ensures 1 <= Hundredths(bytes, UnitIndex(bytes)) / 100 <= 1023
  {
  }

  /** The byte counts of localizedByteSizeTests, which stay in bytes. */
  lemma LocalizedByteSizeExamplesB()
    ensures LocalizedByteSize(0) == "0 B"
    ensures LocalizedByteSize(1) == "1 B"
    ensures LocalizedByteSize(999) == "999 B"
    ensures LocalizedByteSize(1000) == "1000 B"
    ensures LocalizedByteSize(1023) == "1023 B"
  {
    ByteCountTexts();
    LocalizedByteSizeText(0);
    LocalizedByteSizeText(1);
    LocalizedByteSizeText(999);
    LocalizedByteSizeText(1000);
    LocalizedByteSizeText(1023);
  }

  lemma ByteCountTexts()
    ensures Decimal(0) == "0" && Decimal(1) == "1" && Decimal(999) == "999"
    ensures Decimal(1000) == "1000" && Decimal(1023) == "1023"
  {
  }

  /** The text for a size of at least 1024 bytes in unit k whose hundredths are ip * 100 + fp. */
  lemma SizeText(bytes: U64, k: nat, ip: nat, fp: nat)
    requires 1 <= k <= 4 && fp < 100 && bytes >= 1024
    requires UnitIndex(bytes) == k
    requires Hundredths(bytes, k) == ip * 100 + fp
    ensures LocalizedByteSize(bytes) == Decimal(ip) + "." + Pad2(fp) + " " + UnitName(k)
  {
    LocalizedByteSizeText(bytes);
    HundredthsSplit(ip, fp);
    assert TwoDecimals(ip * 100 + fp) == Decimal(ip) + "." + Pad2(fp);
  }

  lemma HundredthsSplit(ip: nat, fp: nat)
    requires fp < 100
    ensures (ip * 100 + fp) / 100 == ip && (ip * 100 + fp) % 100 == fp
  {
  }

  lemma DigitTexts()
    ensures Decimal(1) == "1" && Decimal(2) == "2" && Decimal(5) == "5" && Decimal(1023) == "1023"
    ensures Pad2(0) == "00" && Pad2(99) == "99" && Pad2(51) == "51"
    ensures Pad2(1) == "01" && Pad2(2) == "02" && Pad2(3) == "03"
  {
  }

  /* The expectations of localizedByteSizeTests from one kilobyte on, one
     lemma each. 2047 and 1048575 show the truncation: rounding would give
     "2.00 KB" and "1024.00 KB". */

  lemma LocalizedByteSize1024()
    ensures LocalizedByteSize(1024) == "1.00 KB"
  {
    SizeText(1024, 1, 1, 0);
    DigitTexts();
  }

  lemma LocalizedByteSize2047()
    ensures LocalizedByteSize(2047) == "1.99 KB"
  {
    SizeText(2047, 1, 1, 99);
    DigitTexts();
  }

  lemma LocalizedByteSize2048()
    ensures LocalizedByteSize(2048) == "2.00 KB"
  {
    SizeText(2048, 1, 2, 0);
    DigitTexts();
  }

  lemma LocalizedByteSize1048575()
    ensures LocalizedByteSize(1048575) == "1023.99 KB"
  {
    SizeText(1048575, 1, 1023, 99);
    DigitTexts();
  }

  lemma LocalizedByteSize1048576()
    ensures LocalizedByteSize(1048576) == "1.00 MB"
  {
    SizeText(1048576, 2, 1, 0);
    DigitTexts();
  }

  lemma LocalizedByteSize1073741823()
    ensures LocalizedByteSize(1073741823) == "1023.99 MB"
  {
    SizeText(1073741823, 2, 1023, 99);
    DigitTexts();
  }

  lemma LocalizedByteSize1073741824()
    ensures LocalizedByteSize(1073741824) == "1.00 GB"
  {
    SizeText(1073741824, 3, 1, 0);
    DigitTexts();
  }

  lemma LocalizedByteSize1099511627775()
    ensures LocalizedByteSize(1099511627775) == "1023.99 GB"
  {
    SizeText(1099511627775, 3, 1023, 99);
    DigitTexts();
  }

  lemma LocalizedByteSize1099511627776()
    ensures LocalizedByteSize(1099511627776) == "1.00 TB"
  {
    SizeText(1099511627776, 4, 1, 0);
    DigitTexts();
  }

  lemma LocalizedByteSize2759774185818()
    ensures LocalizedByteSize(2759774185818) == "2.51 TB"
  {
    SizeText(2759774185818, 4, 2, 51);
    DigitTexts();
  }

  // ---------------------------------------------------------------------------
  // localizedTimeRemaining
  // ---------------------------------------------------------------------------

  /** The value of "a:b:c" read as base-60 groups. */
  function ClockValue(groups: seq<string>): int
    decreases |groups|
  {
    if groups == [] then 0 else ClockValue(groups[..|groups| - 1]) * 60 + ParseDecimal(groups[|groups| - 1])
  }

  /** The number of whole seconds a rendering of localizedTimeRemaining shows:
      the ':'-separated groups before the unit letter. */
  function ShownSeconds(text: string): int {
    if text == [] then 0 else ClockValue(Split(text[..|text| - 1], ':'))
  }

  /** What localizedTimeRemaining promises of its text for `remaining`
      milliseconds: the groups before the unit letter read back as the whole
      seconds; the letter is 'h', 'm' or 's' for the largest non-zero unit;
      there are three, two or one groups accordingly, each made of digits;
      every group after the first is two digits below 60; the first group is
      padded to two digits in hours and unpadded otherwise. */
  predicate IsTimeRemainingText(text: string, remaining: nat) {
    && text != []
    && ShownSeconds(text) == remaining / 1000
    && text[|text| - 1] == (if remaining >= 3600000 then 'h' else if remaining >= 60000 then 'm' else 's')
    && var groups := Split(text[..|text| - 1], ':');
      && |groups| == (if remaining >= 3600000 then 3 else if remaining >= 60000 then 2 else 1)
      && (forall i :: 0 <= i < |groups| ==> AllDigits(groups[i]))
      && PaddedAfterFirst(groups)
      && (remaining >= 3600000 ==> groups[0] == Pad2(ParseDecimal(groups[0])))
      && (remaining < 3600000 ==> groups[0] == Decimal(ParseDecimal(groups[0])))
  }

  /** Every group after the first is two digits below 60. */
  predicate PaddedAfterFirst(groups: seq<string>) {
    forall i :: 1 <= i < |groups| ==> |groups[i]| == 2 && ParseDecimal(groups[i]) < 60
  }

  /** The text of localizedTimeRemaining for `remaining` milliseconds, from
      the whole seconds: "hh:mm:ssh" from one hour, "m:ssm" from one minute
      and "ss" below, the milliseconds dropped. */
  function TimeRemainingText(remaining: nat): string {
    var secs := remaining / 1000;
    var h, m, s := secs / 3600, secs / 60 % 60, secs % 60;
    if remaining >= 3600000 then Pad2(h) + ":" + Pad2(m) + ":" + Pad2(s) + "h"
    else if remaining >= 60000 then Decimal(m) + ":" + Pad2(s) + "m"
    else Decimal(s) + "s"
  }

  /** localizedTimeRemaining: three subtractions split off hours, minutes and
      seconds, which are printed with the padding rules of the source. */
  method LocalizedTimeRemaining(remaining: U32) returns (result: string)
    ensures result == TimeRemainingText(remaining)
  {
    var rest := remaining;
    var hours := rest / 3600000;
    rest := rest - hours * 3600000;
    var minutes := rest / 60000;
    rest := rest - minutes * 60000;
    var seconds := rest / 1000;
    rest := rest - seconds * 1000;
    // whatever is left over is milliseconds
    MillisDecomposition(remaining, hours, minutes, seconds, rest);
    ClockFields(remaining / 1000, hours, minutes, seconds);

    result := "";
    if hours > 0 {
      result := result + Pad2(hours) + ":";
    }
    var mm := if minutes < 10 && hours > 0 then Pad2(minutes) else Decimal(minutes);
    if minutes > 0 || hours > 0 {
      result := result + mm + ":";
    }
    var ss := if seconds < 10 && (minutes > 0 || hours > 0) then Pad2(seconds) else Decimal(seconds);
    result := result + ss;
    if hours > 0 {
      assert remaining >= 3600000;
      assert result == Pad2(hours) + ":" + Pad2(minutes) + ":" + Pad2(seconds);
      result := result + "h";
    } else if minutes > 0 {
      assert 60000 <= remaining < 3600000;
      assert result == Decimal(minutes) + ":" + Pad2(seconds);
      result := result + "m";
    } else {
      assert remaining < 60000;
      assert result == Decimal(seconds);
      result := result + "s";
    }
  }

  /** The text reads back as the whole seconds, with the unit letter, the
      number of groups and the padding the source promises. */
  lemma TimeRemainingReadsBack(remaining: nat)
    ensures IsTimeRemainingText(TimeRemainingText(remaining), remaining)
  {
    var h := remaining / 3600000;
    var m := (remaining - h * 3600000) / 60000;
    var s := (remaining - h * 3600000 - m * 60000) / 1000;
    MillisDecomposition(remaining, h, m, s, remaining - h * 3600000 - m * 60000 - s * 1000);
    ClockFields(remaining / 1000, h, m, s);
    var text := TimeRemainingText(remaining);
    if remaining >= 3600000 {
      assert text == Pad2(h) + ":" + Pad2(m) + ":" + Pad2(s) + "h";
      HoursText(remaining, h, m, s);
    } else if remaining >= 60000 {
      assert h == 0;
      assert text == Decimal(m) + ":" + Pad2(s) + "m";
      MinutesText(remaining, m, s);
    } else {
      assert h == 0 && m == 0;
      assert text == Decimal(s) + "s";
      SecondsText(remaining, s);
    }
  }

  /** Whole seconds written as hours, minutes below 60 and seconds below 60
      are secs / 3600, secs / 60 % 60 and secs % 60. */
  lemma ClockFields(secs: nat, h: nat, m: nat, s: nat)
    requires m < 60 && s < 60
    requires secs == h * 3600 + m * 60 + s
    ensures secs / 3600 == h && secs / 60 % 60 == m && secs % 60 == s
  {
    DivUnique(secs, 60, h * 60 + m, s);
    DivUnique(h * 60 + m, 60, h, m);
    DivUnique(secs, 3600, h, m * 60 + s);
  }

  lemma DivUnique(a: nat, d: nat, q: nat, r: nat)
    requires 0 <= r < d && a == q * d + r
    ensures a / d == q && a % d == r
  {
    var q', r' := a / d, a % d;
    assert a == q' * d + r' && 0 <= r' < d;
    if q' > q {
      MulStep(q, q', d);
    } else if q' < q {
      MulStep(q', q, d);
    }
  }

  lemma MulStep(x: nat, y: nat, d: nat)
    requires x < y
    ensures x * d + d <= y * d
  {
    MulLe(x + 1, y, d);
    assert (x + 1) * d == x * d + d;
  }

  lemma MulLe(x: nat, y: nat, d: nat)
    requires x <= y
    ensures x * d <= y * d
  {
    assert y * d == x * d + (y - x) * d;
  }

  /** From one hour on: "hh:mm:ss" and the letter h. */
  lemma HoursText(remaining: nat, hours: nat, minutes: nat, seconds: nat)
    requires hours > 0 && minutes < 60 && seconds < 60
    requires remaining >= 3600000
    requires remaining / 1000 == hours * 3600 + minutes * 60 + seconds
    ensures IsTimeRemainingText(Pad2(hours) + ":" + Pad2(minutes) + ":" + Pad2(seconds) + "h", remaining)
  {
    var hh, mm, ss := Pad2(hours), Pad2(minutes), Pad2(seconds);
    var clock := hh + ":" + mm + ":" + ss;
    var text := clock + "h";
    assert text[..|text| - 1] == clock;
    ClockOfHours(hours, minutes, seconds);
    var groups := Split(clock, ':');
    assert groups == [hh, mm, ss];
    Pad2Digits(hours);
    Pad2Digits(minutes);
    Pad2Digits(seconds);
    assert forall i :: 0 <= i < |groups| ==> AllDigits(groups[i]);
    assert PaddedAfterFirst(groups);
    assert groups[0] == Pad2(ParseDecimal(groups[0]));
  }

  /** From one minute to an hour: unpadded minutes, ":ss" and the letter m. */
  lemma MinutesText(remaining: nat, minutes: nat, seconds: nat)
    requires 0 < minutes < 60 && seconds < 60
    requires 60000 <= remaining < 3600000
    requires remaining / 1000 == minutes * 60 + seconds
    ensures IsTimeRemainingText(Decimal(minutes) + ":" + Pad2(seconds) + "m", remaining)
  {
    var clock := Decimal(minutes) + ":" + Pad2(seconds);
    var text := clock + "m";
    assert text[..|text| - 1] == clock;
    ClockOfMinutes(minutes, seconds);
    ToBaseDigits(minutes, 10);
    Pad2Digits(seconds);
  }

  /** Below a minute: unpadded seconds and the letter s. */
  lemma SecondsText(remaining: nat, seconds: nat)
    requires seconds < 60
    requires remaining < 60000
    requires remaining / 1000 == seconds
    ensures IsTimeRemainingText(Decimal(seconds) + "s", remaining)
  {
    var text := Decimal(seconds) + "s";
    assert text[..|text| - 1] == Decimal(seconds);
    ClockOfSeconds(seconds);
    ToBaseDigits(seconds, 10);
  }

  /** The three subtractions split the milliseconds into whole hours,
      minutes below 60, seconds below 60 and a remainder below 1000. */
  lemma MillisDecomposition(remaining: nat, hours: nat, minutes: nat, seconds: nat, rest: int)
    requires hours == remaining / 3600000
    requires minutes == (remaining - hours * 3600000) / 60000
    requires seconds == (remaining - hours * 3600000 - minutes * 60000) / 1000
    requires rest == remaining - hours * 3600000 - minutes * 60000 - seconds * 1000
    ensures minutes < 60 && seconds < 60 && 0 <= rest < 1000
    ensures remaining / 1000 == hours * 3600 + minutes * 60 + seconds
  {
  }

  /** "hh:mm:ss" reads back as its hours, minutes and seconds. */
  lemma ClockOfHours(hours: nat, minutes: nat, seconds: nat)
    requires minutes < 60 && seconds < 60
    ensures var groups := Split(Pad2(hours) + ":" + Pad2(minutes) + ":" + Pad2(seconds), ':');
      && groups == [Pad2(hours), Pad2(minutes), Pad2(seconds)]
      && ClockValue(groups) == hours * 3600 + minutes * 60 + seconds
      && ParseDecimal(groups[0]) == hours && ParseDecimal(groups[1]) == minutes && ParseDecimal(groups[2]) == seconds
      && |groups[1]| == 2 && |groups[2]| == 2
  {
    var hh, mm, ss := Pad2(hours), Pad2(minutes), Pad2(seconds);
    Pad2Value(hours);
    Pad2Value(minutes);
    Pad2Value(seconds);
    Pad2Length(minutes);
    Pad2Length(seconds);
    var text := hh + ":" + mm + ":" + ss;
    assert text == (hh + [':'] + mm) + [':'] + ss;
    SplitAppend(hh + [':'] + mm, ':', ss);
    SplitAppend(hh, ':', mm);
    SplitNone(hh, ':');
    assert Split(text, ':') == [hh, mm, ss];
    assert ClockValue([hh]) == hours by { assert [hh][..0] == []; }
    assert ClockValue([hh, mm]) == hours * 60 + minutes by { assert [hh, mm][..1] == [hh]; }
    assert ClockValue([hh, mm, ss]) == (hours * 60 + minutes) * 60 + seconds by { assert [hh, mm, ss][..2] == [hh, mm]; }
  }

  /** "m:ss" reads back as its minutes and seconds. */
  lemma ClockOfMinutes(minutes: nat, seconds: nat)
    requires seconds < 60
    ensures var groups := Split(Decimal(minutes) + ":" + Pad2(seconds), ':');
      && groups == [Decimal(minutes), Pad2(seconds)]
      && ClockValue(groups) == minutes * 60 + seconds
      && ParseDecimal(groups[0]) == minutes && ParseDecimal(groups[1]) == seconds
      && |groups[1]| == 2
  {
    var mm, ss := Decimal(minutes), Pad2(seconds);
    DecimalValue(minutes);
    Pad2Value(seconds);
    Pad2Length(seconds);
    var text := mm + ":" + ss;
    assert text == mm + [':'] + ss;
    SplitAppend(mm, ':', ss);
    DecimalSeparatorFree(minutes);
    SplitNone(mm, ':');
    assert Split(text, ':') == [mm, ss];
    assert ClockValue([mm]) == minutes by { assert [mm][..0] == []; }
    assert ClockValue([mm, ss]) == minutes * 60 + seconds by { assert [mm, ss][..1] == [mm]; }
  }

  /** "s" reads back as its seconds. */
  lemma ClockOfSeconds(seconds: nat)
    ensures var groups := Split(Decimal(seconds), ':');
      groups == [Decimal(seconds)] && ClockValue(groups) == seconds && ParseDecimal(groups[0]) == seconds
  {
    DecimalValue(seconds);
    DecimalSeparatorFree(seconds);
    SplitNone(Decimal(seconds), ':');
    assert ClockValue([Decimal(seconds)]) == seconds by { assert [Decimal(seconds)][..0] == []; }
  }

  lemma Pad2Value(n: nat)
    ensures ParseDecimal(Pad2(n)) == n && ':' !in Pad2(n)
  {
    Pad2RoundTrip(n);
    Pad2Digits(n);
    assert IsDigitChar(Pad2(n)[0]);
  }

  lemma DecimalValue(n: nat)
    ensures ParseDecimal(Decimal(n)) == n
  {
    DecimalRoundTrip(n);
  }

  lemma SplitNone(s: string, c: char)
    requires c !in s
    ensures Split(s, c) == [s]
  {
  }

  /** The examples of the function's documentation, one per unit: an hour,
      two minutes and three seconds. */
  lemma TimeRemainingHoursExample()
    ensures TimeRemainingText(3723000) == "01:02:03h"
  {
    assert 3723000 / 1000 == 3723 && 3723 / 3600 == 1 && 3723 / 60 % 60 == 2 && 3723 % 60 == 3;
    DigitTexts();
    assert TimeRemainingText(3723000) == Pad2(1) + ":" + Pad2(2) + ":" + Pad2(3) + "h";
  }

  /** One minute and two seconds. */
  lemma TimeRemainingMinutesExample()
    ensures TimeRemainingText(62000) == "1:02m"
  {
    assert 62000 / 1000 == 62 && 62 / 60 % 60 == 1 && 62 % 60 == 2;
    DigitTexts();
    assert TimeRemainingText(62000) == Decimal(1) + ":" + Pad2(2) + "m";
  }

  /** Five seconds. */
  lemma TimeRemainingSecondsExample()
    ensures TimeRemainingText(5000) == "5s"
  {
    assert 5000 / 1000 == 5 && 5 % 60 == 5;
    DigitTexts();
    assert TimeRemainingText(5000) == Decimal(5) + "s";
  }

  // ---------------------------------------------------------------------------
  // TimeThis
  // ---------------------------------------------------------------------------

  /** The debug line stop() writes for a measured interval. */
  function TimingLine(what: string, ms: int): (line: string)
    ensures StartsWith(line, TimingHead(what))
    ensures |line| >= |TimingHead(what)| + 4 && line[|line| - 3..] == " ms"
  {
    TimingHead(what) + Decimal(ms) + " ms"
  }

  /** What comes before the elapsed time: "timing: " and the label with a
      space after it when there is one. */
  function TimingHead(what: string): (head: string)
    ensures StartsWith(head, "timing: ")
  {
    if what == [] then "timing: " else "timing: " + what + " "
  }

  /** The number between the head and " ms" reads back as the elapsed milliseconds. */
  lemma TimingLineReadsBack(what: string, ms: int)
    ensures var line, head := TimingLine(what, ms), TimingHead(what);
      ParseDecimal(line[|head|..|line| - 3]) == ms
  {
    var line, head := TimingLine(what, ms), TimingHead(what);
    assert line[|head|..|line| - 3] == Decimal(ms);
    DecimalRoundTrip(ms);
  }

  /** TimeThis: measures from start() to stop() and logs the duration once.
      The clock is the `now` argument in milliseconds; `log` collects the
      lines written. */
  class TimeThis {
    var running: bool
    var what: string
    var start: int
    var log: seq<string>
    /** Number of intervals started. */
    ghost var started: nat

    /** Every started interval is logged exactly once, when it stops. */
    ghost predicate Valid()
      reads this
    {
      |log| + (if running then 1 else 0) == started
    }

    /** The constructor starts timing right away. */
    constructor(what: string, now: int)
      ensures Valid()
      ensures running && this.what == what && start == now && log == []
    {
      running := true;
      this.what := what;
      start := now;
      log := [];
      started := 1;
    }

    /** stop(): logs the elapsed time once and stops; a stopped timer stays silent. */
    method Stop(now: int)
      requires Valid()
      modifies this
      ensures Valid() && !running
      ensures old(running) ==> log == old(log) + [TimingLine(old(what), now - old(start))]
      ensures !old(running) ==> log == old(log)
      ensures what == old(what) && start == old(start) && started == old(started)
    {
      if !running {
        return;
      }
      log := log + [TimingLine(what, now - start)];
      running := false;
    }

    /** start(): stops a running interval, then begins a new one. */
    method Start(what: string, now: int)
      requires Valid()
      modifies this
      ensures Valid() && running && this.what == what && start == now
      ensures old(running) ==> log == old(log) + [TimingLine(old(this.what), now - old(start))]
      ensures !old(running) ==> log == old(log)
      ensures started == old(started) + 1
    {
      Stop(now);
      this.what := what;
      start := now;
      running := true;
      started := started + 1;
    }

    /** The destructor: stop(). */
    method Destroy(now: int)
      requires Valid()
      modifies this
      ensures Valid() && !running && |log| == started
      ensures old(running) ==> log == old(log) + [TimingLine(old(what), now - old(start))]
      ensures !old(running) ==> log == old(log)
    {
      Stop(now);
    }
  }

  /** A timer created, stopped and destroyed logs one line, from the stop. */
  method StopThenDestroyLogsOnce(now1: int, now2: int, now3: int) returns (log: seq<string>)
    ensures log == [TimingLine("load", now2 - now1)]
  {
    var t := new TimeThis("load", now1);
    t.Stop(now2);
    t.Destroy(now3);
    log := t.log;
  }
}

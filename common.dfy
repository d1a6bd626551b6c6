/** Shared value types and string helpers used by every part of the shell
    layer: an optional value, number rendering in decimal and hexadecimal
    (with the parsers that invert it), joining and splitting on a separator,
    and the whitespace trimming done by QByteArray::trimmed. */
module Common {

  datatype Option<+T> = None | Some(value: T)

  /** The wide NUL character that terminates every entry of a path buffer. */
  const NUL: char := '\0'

  predicate StartsWith(s: string, prefix: string) {
    |prefix| <= |s| && s[..|prefix|] == prefix
  }

  // ---------------------------------------------------------------------------
  // Numbers as text
  // ---------------------------------------------------------------------------

  /** Lower-case digit for values 0..15, as printed by std::hex and QString::arg. */
  function DigitChar(d: nat): (c: char)
    requires d < 16
    ensures IsDigitChar(c)
  {
    if d < 10 then ('0' as int + d) as char else ('a' as int + d - 10) as char
  }

  predicate IsDigitChar(c: char) {
    '0' <= c <= '9' || 'a' <= c <= 'f'
  }

  function DigitValue(c: char): nat {
    if '0' <= c <= '9' then c as int - '0' as int
    else if 'a' <= c <= 'f' then c as int - 'a' as int + 10
    else 0
  }

  /** The digits of n in the given base, most significant first, without
      leading zeros ("0" for zero). */
  function ToBase(n: nat, base: nat): (r: string)
    requires 2 <= base <= 16
    ensures |r| >= 1
    decreases n
  {
    if n < base then [DigitChar(n)]
    else
      DivLess(n, base);
      ToBase(n / base, base) + [DigitChar(n % base)]
  }

  predicate AllDigits(s: string) {
    forall i :: 0 <= i < |s| ==> IsDigitChar(s[i])
  }

  lemma {:induction false} ToBaseDigits(n: nat, base: nat)
    requires 2 <= base <= 16
    ensures AllDigits(ToBase(n, base))
    decreases n
  {
    if n >= base {
      DivLess(n, base);
      ToBaseDigits(n / base, base);
    }
  }

  /** Reads a digit string back into its value (the empty string reads as 0). */
  function FromBase(s: string, base: nat): nat
    decreases |s|
  {
    if s == [] then 0 else FromBase(s[..|s| - 1], base) * base + DigitValue(s[|s| - 1])
  }

  lemma DigitRoundTrip(d: nat)
    requires d < 16
    ensures DigitValue(DigitChar(d)) == d
  {
  }

  lemma FromBaseSnoc(s: string, c: char, base: nat)
    ensures FromBase(s + [c], base) == FromBase(s, base) * base + DigitValue(c)
  {
    assert (s + [c])[..|s|] == s;
  }

  lemma DivMod(n: nat, base: nat)
    requires base > 0
    ensures (n / base) * base + n % base == n
  {
  }

  /** Dropping the last digit makes the number smaller. */
  lemma DivLess(n: nat, base: nat)
    requires 2 <= base <= n
    ensures n / base < n
  {
    var q := n / base;
    DivMod(n, base);
    assert q * base - q * 2 == q * (base - 2);
  }

  lemma AppendDigit(t: string, q: nat, d: nat, base: nat)
    requires d < 16
    requires FromBase(t, base) == q
    ensures FromBase(t + [DigitChar(d)], base) == q * base + d
  {
    DigitRoundTrip(d);
    FromBaseSnoc(t, DigitChar(d), base);
  }

  lemma {:induction false} FromBaseToBase(n: nat, base: nat)
    requires 2 <= base <= 16
    ensures FromBase(ToBase(n, base), base) == n
    decreases n
  {
    if n < base {
      DigitRoundTrip(n);
      FromBaseSnoc([], DigitChar(n), base);
      assert [] + [DigitChar(n)] == ToBase(n, base);
    } else {
      var q, d := n / base, n % base;
      var t := ToBase(q, base);
      assert ToBase(n, base) == t + [DigitChar(d)];
      DivLess(n, base);
      FromBaseToBase(q, base);
      AppendDigit(t, q, d, base);
      DivMod(n, base);
    }
  }

  /** A leading zero does not change the value of a digit string. */
  lemma {:induction false} FromBaseLeadingZero(s: string, base: nat)
    ensures FromBase("0" + s, base) == FromBase(s, base)
    decreases |s|
  {
    if s != [] {
      assert ("0" + s)[..|"0" + s| - 1] == "0" + s[..|s| - 1];
      FromBaseLeadingZero(s[..|s| - 1], base);
    } else {
      assert FromBase("0", base) == FromBase("", base) * base + DigitValue('0');
    }
  }

  /** Decimal rendering of an integer (std::to_string, QString::arg, "%lld"). */
  function Decimal(i: int): (r: string)
    ensures |r| >= 1
  {
    if i < 0 then "-" + ToBase(-i, 10) else ToBase(i, 10)
  }

  /** Hexadecimal rendering, lower case and without prefix (std::hex, arg(id, 0, 16)). */
  function Hex(n: nat): (r: string)
    ensures |r| >= 1
  {
    ToBase(n, 16)
  }

  /** Reads an optionally negative decimal number. */
  function ParseDecimal(s: string): int {
    if s != [] && s[0] == '-' then -(FromBase(s[1..], 10) as int) else FromBase(s, 10)
  }

  lemma DecimalRoundTrip(i: int)
    ensures ParseDecimal(Decimal(i)) == i
  {
    if i < 0 {
      FromBaseToBase(-i, 10);
      assert Decimal(i)[1..] == ToBase(-i, 10);
    } else {
      FromBaseToBase(i, 10);
      ToBaseDigits(i, 10);
      assert IsDigitChar(Decimal(i)[0]);
    }
  }

  lemma DecimalOfNat(n: nat)
    ensures Decimal(n) == ToBase(n, 10)
    ensures FromBase(Decimal(n), 10) == n
  {
    FromBaseToBase(n, 10);
  }

  lemma HexRoundTrip(n: nat)
    ensures FromBase(Hex(n), 16) == n
  {
    FromBaseToBase(n, 16);
  }

  /** "%lld" of a value below 10 with a literal "0" in front, otherwise plain. */
  function Pad2(n: nat): (r: string)
    ensures |r| >= 2
  {
    if n < 10 then "0" + Decimal(n) else Decimal(n)
  }

  /** Numbers never contain the separators ':' and '.'. */
  lemma DecimalSeparatorFree(i: int)
    ensures ':' !in Decimal(i) && '.' !in Decimal(i)
  {
    ToBaseDigits(if i < 0 then -i else i, 10);
  }

  /** Padded numbers are digits only. */
  lemma Pad2Digits(n: nat)
    ensures AllDigits(Pad2(n))
    ensures ':' !in Pad2(n) && '.' !in Pad2(n)
  {
    ToBaseDigits(n, 10);
  }

  lemma Pad2Length(n: nat)
    requires n < 100
    ensures |Pad2(n)| == 2
  {
    if n >= 10 {
      assert ToBase(n, 10) == ToBase(n / 10, 10) + [DigitChar(n % 10)];
    }
  }

  lemma {:induction false} Pad2RoundTrip(n: nat)
    ensures FromBase(Pad2(n), 10) == n
  {
    DecimalOfNat(n);
    if n < 10 {
      FromBaseLeadingZero(Decimal(n), 10);
    }
  }

  // ---------------------------------------------------------------------------
  // Joining and splitting
  // ---------------------------------------------------------------------------

  /** The parts with the separator between neighbours (QStringList::join). */
  function Join(parts: seq<string>, sep: string): string
    decreases |parts|
  {
    if |parts| == 0 then ""
    else if |parts| == 1 then parts[0]
    else Join(parts[..|parts| - 1], sep) + sep + parts[|parts| - 1]
  }

  /** Index of the last occurrence of c, or -1. */
  function LastIndex(s: string, c: char): (i: int)
    ensures -1 <= i < |s|
    ensures i >= 0 ==> s[i] == c
    ensures forall k :: i < k < |s| ==> s[k] != c
    decreases |s|
  {
    if s == [] then -1
    else if s[|s| - 1] == c then |s| - 1
    else LastIndex(s[..|s| - 1], c)
  }

  /** Index of the first occurrence of c, or |s| when there is none. */
  function FirstIndex(s: string, c: char): (i: nat)
    ensures i <= |s|
    ensures i < |s| ==> s[i] == c
    ensures forall k :: 0 <= k < i ==> s[k] != c
    decreases |s|
  {
    if s == [] then 0
    else if s[0] == c then 0
    else 1 + FirstIndex(s[1..], c)
  }

  lemma FirstIndexAfter(a: string, c: char, b: string)
    requires c !in a
    ensures FirstIndex(a + [c] + b, c) == |a|
  {
    var s := a + [c] + b;
    assert s[|a|] == c;
    assert forall k :: 0 <= k < |a| ==> s[k] == a[k];
  }

  lemma {:induction false} LastIndexBefore(a: string, c: char, b: string)
    requires c !in b
    ensures LastIndex(a + [c] + b, c) == |a|
    decreases |b|
  {
    var s := a + [c] + b;
    if b != [] {
      assert s[|s| - 1] == b[|b| - 1];
      assert s[..|s| - 1] == a + [c] + b[..|b| - 1];
      LastIndexBefore(a, c, b[..|b| - 1]);
    }
  }

  /** QString::split on one character: empty parts are kept, and a string
      without the separator is a single part. */
  function Split(s: string, c: char): (parts: seq<string>)
    ensures |parts| >= 1
    decreases |s|
  {
    var i := LastIndex(s, c);
    if i < 0 then [s] else Split(s[..i], c) + [s[i + 1..]]
  }

  lemma {:induction false} SplitPartsFree(s: string, c: char)
    ensures forall k :: 0 <= k < |Split(s, c)| ==> c !in Split(s, c)[k]
    decreases |s|
  {
    var i := LastIndex(s, c);
    if i >= 0 {
      SplitPartsFree(s[..i], c);
    }
  }

  /** Splitting and joining on the same character give back the string. */
  lemma {:induction false} JoinSplit(s: string, c: char)
    ensures Join(Split(s, c), [c]) == s
    decreases |s|
  {
    var i := LastIndex(s, c);
    if i >= 0 {
      JoinSplit(s[..i], c);
      var parts := Split(s, c);
      assert parts[..|parts| - 1] == Split(s[..i], c);
      assert s == s[..i] + [c] + s[i + 1..];
    }
  }

  /** Appending one part that is free of the separator appends one part. */
  lemma SplitAppend(a: string, c: char, b: string)
    requires c !in b
    ensures Split(a + [c] + b, c) == Split(a, c) + [b]
  {
    var s := a + [c] + b;
    var i := LastIndex(s, c);
    LastIndexBefore(a, c, b);
    assert s[..i] == a;
    assert s[i + 1..] == b;
  }

  /** QDir::toNativeSeparators on Windows: every '/' becomes a backslash. */
  function NativeSeparators(s: string): (r: string)
    ensures |r| == |s|
    ensures forall i :: 0 <= i < |s| ==> r[i] == (if s[i] == '/' then '\\' else s[i])
    decreases |s|
  {
    if s == [] then [] else NativeSeparators(s[..|s| - 1]) + [if s[|s| - 1] == '/' then '\\' else s[|s| - 1]]
  }

  // ---------------------------------------------------------------------------
  // Whitespace
  // ---------------------------------------------------------------------------

  /** ASCII whitespace as isspace sees it in the C locale: space, \t \n \v \f \r. */
  predicate IsSpace(c: char) {
    c == ' ' || ('\t' <= c <= '\r')
  }

  /** The first position at or after i that is not whitespace (or |s|). */
  function SkipSpaces(s: string, i: nat): (k: nat)
    requires i <= |s|
    ensures i <= k <= |s|
    decreases |s| - i
  {
    if i < |s| && IsSpace(s[i]) then SkipSpaces(s, i + 1) else i
  }

  /** The end of s[lo..hi] once its trailing whitespace is dropped. */
  function SkipSpacesBack(s: string, lo: nat, hi: nat): (k: nat)
    requires lo <= hi <= |s|
    ensures lo <= k <= hi
    decreases hi
  {
    if lo < hi && IsSpace(s[hi - 1]) then SkipSpacesBack(s, lo, hi - 1) else hi
  }

  lemma {:induction false} SkipSpacesRun(s: string, i: nat)
    requires i <= |s|
    ensures forall k :: i <= k < SkipSpaces(s, i) ==> IsSpace(s[k])
    ensures SkipSpaces(s, i) == |s| || !IsSpace(s[SkipSpaces(s, i)])
    decreases |s| - i
  {
    if i < |s| && IsSpace(s[i]) {
      SkipSpacesRun(s, i + 1);
    }
  }

  lemma {:induction false} SkipSpacesBackRun(s: string, lo: nat, hi: nat)
    requires lo <= hi <= |s|
    ensures forall k :: SkipSpacesBack(s, lo, hi) <= k < hi ==> IsSpace(s[k])
    ensures SkipSpacesBack(s, lo, hi) == lo || !IsSpace(s[SkipSpacesBack(s, lo, hi) - 1])
    decreases hi
  {
    if lo < hi && IsSpace(s[hi - 1]) {
      SkipSpacesBackRun(s, lo, hi - 1);
    }
  }

  /** Where the trimmed text starts and ends in s. */
  function TrimStartIndex(s: string): nat
    ensures TrimStartIndex(s) <= |s|
  {
    SkipSpaces(s, 0)
  }

  function TrimEndIndex(s: string): nat
    ensures TrimStartIndex(s) <= TrimEndIndex(s) <= |s|
  {
    SkipSpacesBack(s, TrimStartIndex(s), |s|)
  }

  /** Whitespace removed from both ends, inner whitespace kept (QByteArray::trimmed). */
  function Trimmed(s: string): string {
    s[TrimStartIndex(s)..TrimEndIndex(s)]
  }

  /** The trimmed string is the infix of s that starts and ends with a
      non-space character, with only whitespace cut off around it. */
  lemma TrimmedIsInfix(s: string)
    ensures var lo, hi := TrimStartIndex(s), TrimEndIndex(s);
      && (forall i :: 0 <= i < lo ==> IsSpace(s[i]))
      && (forall i :: hi <= i < |s| ==> IsSpace(s[i]))
      && (lo == hi || (!IsSpace(s[lo]) && !IsSpace(s[hi - 1])))
  {
    SkipSpacesRun(s, 0);
    SkipSpacesBackRun(s, TrimStartIndex(s), |s|);
  }

  /** Neither end of a trimmed string is whitespace. */
  lemma TrimmedEnds(s: string)
    ensures var r := Trimmed(s); r == [] || (!IsSpace(r[0]) && !IsSpace(r[|r| - 1]))
  {
    TrimmedIsInfix(s);
  }
}

/**
 * The string operations the app relies on: decimal rendering of integers (Swift's string
 * interpolation), splitting on a separator (Foundation's `components(separatedBy:)`) and
 * the ordering of `String`'s `<`.
 */
module Text {
  import opened Wrappers

  predicate IsDigit(c: char) {
    '0' <= c <= '9'
  }

  predicate AllDigits(s: string) {
    forall i :: 0 <= i < |s| ==> IsDigit(s[i])
  }

  function DigitChar(d: nat): (c: char)
    requires d < 10
    ensures IsDigit(c) && c as int - '0' as int == d
  {
    (('0' as int) + d) as char
  }

  /** The decimal digits of `n`, most significant first, without leading zeros. */
  function NatToString(n: nat): (s: string)
    ensures 1 <= |s| && AllDigits(s)
    ensures |s| == 1 || s[0] != '0'
  {
    if n < 10 then [DigitChar(n)] else NatToString(n / 10) + [DigitChar(n % 10)]
  }

  /** The value of a string of decimal digits; the inverse of NatToString. */
  function DigitsValue(s: string): nat
    requires AllDigits(s)
  {
    if s == [] then 0 else DigitsValue(s[..|s| - 1]) * 10 + (s[|s| - 1] as int - '0' as int)
  }

  lemma {:induction false} NatToStringRoundTrip(n: nat)
    ensures DigitsValue(NatToString(n)) == n
  {
    if n >= 10 {
      var s := NatToString(n);
      assert s[..|s| - 1] == NatToString(n / 10);
      NatToStringRoundTrip(n / 10);
    }
  }

  /** `"\(i)"` for a Swift `Int`: a minus sign for negative values, then the digits. */
  function IntToString(i: int): string {
    if i < 0 then "-" + NatToString(-i) else NatToString(i)
  }

  /** Reads back an optionally signed decimal numeral; None for anything else. */
  function ParseInt(s: string): Option<int> {
    if 2 <= |s| && s[0] == '-' && AllDigits(s[1..]) then Some(0 - DigitsValue(s[1..]))
    else if 1 <= |s| && AllDigits(s) then Some(DigitsValue(s))
    else None
  }

  lemma ParseDigits(d: string)
    requires 1 <= |d| && AllDigits(d)
    ensures ParseInt(d) == Some(DigitsValue(d))
  {
    assert IsDigit(d[0]);
  }

  lemma ParseSignedDigits(d: string)
    requires 1 <= |d| && AllDigits(d)
    ensures ParseInt("-" + d) == Some(0 - DigitsValue(d))
  {
    assert ("-" + d)[1..] == d;
  }

  lemma SignedRoundTrip(n: nat)
    ensures ParseInt("-" + NatToString(n)) == Some(0 - n)
  {
    NatToStringRoundTrip(n);
    ParseSignedDigits(NatToString(n));
  }

  lemma IntToStringRoundTrip(i: int)
    ensures ParseInt(IntToString(i)) == Some(i)
  {
    if i < 0 {
      SignedRoundTrip(-i);
    } else {
      NatToStringRoundTrip(i);
      ParseDigits(NatToString(i));
    }
  }

  lemma IntToStringInjective(a: int, b: int)
    requires IntToString(a) == IntToString(b)
    ensures a == b
  {
    IntToStringRoundTrip(a);
    IntToStringRoundTrip(b);
  }

  /** Foundation's `components(separatedBy:)` with a one-character separator. */
  function Components(s: string, sep: char): (parts: seq<string>)
    ensures 1 <= |parts|
  {
    if s == [] then [""]
    else
      var rest := Components(s[1..], sep);
      if s[0] == sep then [""] + rest else [[s[0]] + rest[0]] + rest[1..]
  }

  /** Glues parts back together with the separator between consecutive parts. */
  function Join(parts: seq<string>, sep: char): string
    requires 1 <= |parts|
  {
    if |parts| == 1 then parts[0] else parts[0] + [sep] + Join(parts[1..], sep)
  }

  lemma {:induction false} JoinComponents(s: string, sep: char)
    ensures Join(Components(s, sep), sep) == s
    ensures forall i :: 0 <= i < |Components(s, sep)| ==> sep !in Components(s, sep)[i]
  {
    if s != [] {
      JoinComponents(s[1..], sep);
      var rest := Components(s[1..], sep);
      if s[0] == sep {
        assert Components(s, sep)[1..] == rest;
      } else {
        var parts := Components(s, sep);
        assert parts[0] == [s[0]] + rest[0];
        if |rest| > 1 {
          assert parts[1..] == rest[1..];
        }
        forall i | 0 <= i < |parts| ensures sep !in parts[i] {
          if i > 0 {
            assert parts[i] == rest[i];
          }
        }
      }
    }
  }

  lemma {:induction false} JoinLast(parts: seq<string>, sep: char)
    requires 2 <= |parts|
    ensures Join(parts, sep) == Join(parts[..|parts| - 1], sep) + [sep] + parts[|parts| - 1]
  {
    if |parts| > 2 {
      JoinLast(parts[1..], sep);
      assert parts[1..][..|parts| - 2] == parts[..|parts| - 1][1..];
    }
  }

  lemma NoSeparatorIsOneComponent(s: string, sep: char)
    requires sep !in s
    ensures Components(s, sep) == [s]
  {
    JoinComponents(s, sep);
  }

  /** The text before the first separator, or all of `s` when it has none. */
  function FirstComponent(s: string, sep: char): string {
    Components(s, sep)[0]
  }

  /** The text after the last separator, or all of `s` when it has none. */
  function LastComponent(s: string, sep: char): string {
    var parts := Components(s, sep);
    parts[|parts| - 1]
  }

  lemma FirstComponentIsTextBeforeFirstSeparator(s: string, sep: char)
    ensures var f := FirstComponent(s, sep);
      && f <= s && sep !in f
      && (|f| == |s| || s[|f|] == sep)
  {
    var parts := Components(s, sep);
    JoinComponents(s, sep);
    assert sep !in parts[0];
    if |parts| > 1 {
      assert s == parts[0] + [sep] + Join(parts[1..], sep);
    }
  }

  lemma LastComponentIsTextAfterLastSeparator(s: string, sep: char)
    ensures var l := LastComponent(s, sep);
      && |l| <= |s| && s[|s| - |l|..] == l && sep !in l
      && (|l| == |s| || s[|s| - |l| - 1] == sep)
  {
    var parts := Components(s, sep);
    JoinComponents(s, sep);
    assert sep !in parts[|parts| - 1];
    if |parts| > 1 {
      JoinLast(parts, sep);
      var front := Join(parts[..|parts| - 1], sep);
      assert s == front + [sep] + parts[|parts| - 1];
    }
  }

  /**
   * `String` `<` modelled as lexicographic order on characters. Swift compares up to Unicode
   * canonical equivalence; on the ASCII time codes sorted here the two orders agree.
   */
  predicate Less(a: string, b: string) {
    if a == [] then b != []
    else if b == [] then false
    else if a[0] != b[0] then a[0] < b[0]
    else Less(a[1..], b[1..])
  }

  lemma {:induction false} LessIrreflexive(a: string)
    ensures !Less(a, a)
  {
    if a != [] {
      LessIrreflexive(a[1..]);
    }
  }

  lemma {:induction false} LessTransitive(a: string, b: string, c: string)
    requires Less(a, b) && Less(b, c)
    ensures Less(a, c)
  {
    if a != [] && b != [] && c != [] && a[0] == b[0] && b[0] == c[0] {
      LessTransitive(a[1..], b[1..], c[1..]);
    }
  }

  lemma {:induction false} LessTotal(a: string, b: string)
    requires a != b
    ensures Less(a, b) || Less(b, a)
  {
    if a != [] && b != [] && a[0] == b[0] {
      assert a == [a[0]] + a[1..] && b == [b[0]] + b[1..];
      LessTotal(a[1..], b[1..]);
    }
  }

  /** Time codes compare as text, not as durations: "10:00" sorts before "2:00". */
  lemma TimeCodesCompareAsText()
    ensures Less("10:00", "2:00") && Less("09:00", "10:00") && !Less("2:00", "10:00")
    ensures Less("00:10:00", "00:2:00")
  {
  }
}

/** Decimal text: `String(n)` and `parseInt(s, 10)`, and the proof that the second reads back the first. */
module Decimal {
  import opened Prelude

  function Digit(d: nat): char
    requires d < 10
  {
    '0' + d as char
  }

  predicate IsDigit(c: char) {
    '0' <= c <= '9'
  }

  function Digits(n: nat): (s: string)
    ensures s != [] && IsDigit(s[0])
  {
    if n < 10 then [Digit(n)] else Digits(n / 10) + [Digit(n % 10)]
  }

  /** `String(n)` for an integral number. */
  function ToText(n: int): string {
    if n < 0 then "-" + Digits(-n) else Digits(n)
  }

  /** White space that `parseInt` skips in front of the number. */
  predicate IsSpace(c: char) {
    || '\t' <= c <= '\r' || c == ' ' || c == '\U{A0}' || c == '\U{1680}'
    || '\U{2000}' <= c <= '\U{200A}' || c == '\U{2028}' || c == '\U{2029}' || c == '\U{202F}' || c == '\U{205F}'
    || c == '\U{3000}' || c == '\U{FEFF}'
  }

  function SkipSpace(s: string): string {
    if s != [] && IsSpace(s[0]) then SkipSpace(s[1..]) else s
  }

  /** The value of the digits that open `s`, read after `acc`. */
  function Scan(s: string, acc: nat): nat {
    if s != [] && IsDigit(s[0]) then Scan(s[1..], 10 * acc + (s[0] - '0') as nat) else acc
  }

  /** `parseInt(s, 10)`; `None` is NaN. */
  function ParseInt(s: string): Option<int> {
    var t := SkipSpace(s);
    var negative := t != [] && t[0] == '-';
    var u := if t != [] && (t[0] == '-' || t[0] == '+') then t[1..] else t;
    if u == [] || !IsDigit(u[0]) then None
    else
      var magnitude: int := Scan(u, 0);
      Some(if negative then -magnitude else magnitude)
  }

  lemma {:induction false} ScanDigits(n: nat, rest: string)
    ensures Scan(Digits(n) + rest, 0) == Scan(rest, n)
  {
    if n < 10 {
      assert ([Digit(n)] + rest)[1..] == rest;
    } else {
      var last := [Digit(n % 10)];
      assert Digits(n) + rest == Digits(n / 10) + (last + rest);
      ScanDigits(n / 10, last + rest);
      assert (last + rest)[1..] == rest;
    }
  }

  /** `parseInt` reads back what `String` wrote and stops at the first character that is no digit. */
  lemma ParseReadsPrefix(n: int, rest: string)
    requires rest == "" || !IsDigit(rest[0])
    ensures ParseInt(ToText(n) + rest) == Some(n)
  {
    var magnitude: nat := if n < 0 then -n else n;
    ScanDigits(magnitude, rest);
    if n < 0 {
      assert (ToText(n) + rest)[1..] == Digits(magnitude) + rest;
    }
  }

  /** What `String` writes, `parseInt` reads back. */
  lemma ParseReadsBack(n: int)
    ensures ParseInt(ToText(n)) == Some(n)
  {
    ParseReadsPrefix(n, "");
    assert ToText(n) + "" == ToText(n);
  }

  /** The ten digits and the sign, as they are written. */
  lemma DigitsAreArabic()
    ensures ToText(1234567890) == "1234567890" && ToText(-7) == "-7" && ToText(0) == "0"
  {
    assert Digits(1) == "1" && Digits(12) == "12" && Digits(123) == "123" && Digits(1234) == "1234" && Digits(12345) == "12345";
    assert Digits(123456) == "123456" && Digits(1234567) == "1234567" && Digits(12345678) == "12345678";
    assert Digits(123456789) == "123456789" && Digits(1234567890) == "1234567890";
  }

  lemma TextIsInjective(m: int, n: int)
    requires ToText(m) == ToText(n)
    ensures m == n
  {
    ParseReadsBack(m);
    ParseReadsBack(n);
  }

  lemma TextIsNeverEmpty(n: int)
    ensures ToText(n) != ""
  {
  }
}

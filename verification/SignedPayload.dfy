/** The number of a snapshot as JavaScript computes it, and as it prints. */
module SequenceNumbers {
  import opened Decimal

  datatype Number = NaN | Int(value: int)

  function NumberText(n: Number): string {
    match n case NaN => "NaN" case Int(i) => ToText(i)
  }
}

/**
  The text a snapshot's signature covers: Base64 ciphertext (section 4 of RFC 4648), decimal number and checksum,
  joined without separators; and exactly which numbers leave it ambiguous.
 */
module SignedPayload {
  import opened Prelude
  import opened Decimal
  import opened SequenceNumbers

  const CHECKSUM_LENGTH := 64

  // ----- Base64 -----

  function Symbol(v: nat): char
    requires v < 64
  {
    if v < 26 then 'A' + v as char
    else if v < 52 then 'a' + (v - 26) as char
    else if v < 62 then '0' + (v - 52) as char
    else if v == 62 then '+' else '/'
  }

  predicate IsSymbol(c: char) {
    'A' <= c <= 'Z' || 'a' <= c <= 'z' || '0' <= c <= '9' || c == '+' || c == '/'
  }

  function ValueOf(c: char): (v: nat)
    requires IsSymbol(c)
    ensures v < 64 && Symbol(v) == c
  {
    if 'A' <= c <= 'Z' then (c - 'A') as nat
    else if 'a' <= c <= 'z' then 26 + (c - 'a') as nat
    else if '0' <= c <= '9' then 52 + (c - '0') as nat
    else if c == '+' then 62 else 63
  }

  lemma SymbolReadsBack(v: nat)
    requires v < 64
    ensures IsSymbol(Symbol(v)) && ValueOf(Symbol(v)) == v
  {
  }

  function Four(w: nat, x: nat, y: nat, z: nat): string
    requires w < 64 && x < 64 && y < 64 && z < 64
  {
    [Symbol(w), Symbol(x), Symbol(y), Symbol(z)]
  }

  function Quad(a: byte, b: byte, c: byte): string {
    Four(a / 4, a % 4 * 16 + b / 16, b % 16 * 4 + c / 64, c % 64)
  }

  function Base64(bytes: seq<byte>): string {
    if bytes == [] then ""
    else if |bytes| == 1 then Quad(bytes[0], 0, 0)[..2] + "=="
    else if |bytes| == 2 then Quad(bytes[0], bytes[1], 0)[..3] + "="
    else Quad(bytes[0], bytes[1], bytes[2]) + Base64(bytes[3..])
  }

  /** Three bytes are read as one number, most significant byte first, and written in four digits to base 64. */
  lemma QuadIsBigEndian(a: byte, b: byte, c: byte) returns (w: nat, x: nat, y: nat, z: nat)
    ensures w < 64 && x < 64 && y < 64 && z < 64
    ensures w * 0x4_0000 + x * 0x1000 + y * 64 + z == a * 0x1_0000 + b * 0x100 + c
    ensures Quad(a, b, c) == Four(w, x, y, z)
  {
    w, x, y, z := a / 4, a % 4 * 16 + b / 16, b % 16 * 4 + c / 64, c % 64;
  }

  lemma OneQuad(a: byte, b: byte, c: byte)
    ensures Base64([a, b, c]) == Quad(a, b, c)
  {
    assert [a, b, c][3..] == [];
  }

  lemma PaddingOfTheRfc()
    ensures Base64([0x66]) == "Zg==" && Base64([0x66, 0x6F]) == "Zm8="
  {
  }

  /** The examples "f", "fo", "foo" and "foob" of section 10 of RFC 4648. */
  lemma EncodesAsInTheRfc()
    ensures Base64([0x66]) == "Zg==" && Base64([0x66, 0x6F]) == "Zm8=" && Base64([0x66, 0x6F, 0x6F]) == "Zm9v"
    ensures Base64([0x66, 0x6F, 0x6F, 0x62]) == "Zm9v" + "Yg=="
  {
    PaddingOfTheRfc();
    OneQuad(0x66, 0x6F, 0x6F);
    assert [0x66, 0x6F, 0x6F, 0x62][3..] == [0x62];
  }

  /** Where the four stretches of its alphabet begin, and its last two symbols. */
  lemma AlphabetOfTheRfc()
    ensures Base64([0x00, 0x10, 0x83]) == "ABCD" && Base64([0x69, 0xB7, 0x1D]) == "abcd"
    ensures Base64([0xD3, 0x5D, 0xB7]) == "0123" && Base64([0xFB, 0xEF, 0xFF]) == "++//"
  {
    OneQuad(0x00, 0x10, 0x83);
    OneQuad(0x69, 0xB7, 0x1D);
    OneQuad(0xD3, 0x5D, 0xB7);
    OneQuad(0xFB, 0xEF, 0xFF);
  }

  predicate Encoded(s: string) {
    |s| % 4 == 0 && forall i :: 0 <= i < |s| ==> IsSymbol(s[i]) || s[i] == '='
  }

  lemma QuadShape(a: byte, b: byte, c: byte)
    ensures forall i :: 0 <= i < 4 ==> IsSymbol(Quad(a, b, c)[i])
  {
  }

  lemma {:induction false} Base64Shape(bytes: seq<byte>)
    ensures Encoded(Base64(bytes))
  {
    if |bytes| == 1 {
      QuadShape(bytes[0], 0, 0);
      JoinEncoded(Quad(bytes[0], 0, 0)[..2] + "==", "");
    } else if |bytes| == 2 {
      QuadShape(bytes[0], bytes[1], 0);
      JoinEncoded(Quad(bytes[0], bytes[1], 0)[..3] + "=", "");
    } else if |bytes| > 2 {
      QuadShape(bytes[0], bytes[1], bytes[2]);
      Base64Shape(bytes[3..]);
      JoinEncoded(Quad(bytes[0], bytes[1], bytes[2]), Base64(bytes[3..]));
    }
  }

  lemma JoinEncoded(a: string, b: string)
    requires Encoded(a) && Encoded(b)
    ensures Encoded(a + b)
  {
    MultiplesAdd(|a|, |b|);
    AllOfBoth(a, b, (c: char) => IsSymbol(c) || c == '=');
  }

  lemma MultiplesAdd(m: nat, n: nat)
    requires m % 4 == 0 && n % 4 == 0
    ensures (m + n) % 4 == 0
  {
  }

  lemma AllOfBoth(a: string, b: string, q: char -> bool)
    requires (forall i :: 0 <= i < |a| ==> q(a[i])) && (forall i :: 0 <= i < |b| ==> q(b[i]))
    ensures forall i :: 0 <= i < |a + b| ==> q((a + b)[i])
  {
    forall i | 0 <= i < |a + b| ensures q((a + b)[i]) {
      if i < |a| { assert (a + b)[i] == a[i]; } else { assert (a + b)[i] == b[i - |a|]; }
    }
  }

  lemma QuadIsInjective(a: byte, b: byte, c: byte, a': byte, b': byte, c': byte)
    requires Quad(a, b, c) == Quad(a', b', c')
    ensures a == a' && b == b' && c == c'
  {
    var q, q' := Quad(a, b, c), Quad(a', b', c');
    assert q[0] == q'[0] && q[1] == q'[1] && q[2] == q'[2] && q[3] == q'[3];
    SymbolReadsBack(a / 4); SymbolReadsBack(a' / 4);
    SymbolReadsBack(a % 4 * 16 + b / 16); SymbolReadsBack(a' % 4 * 16 + b' / 16);
    SymbolReadsBack(b % 16 * 4 + c / 64); SymbolReadsBack(b' % 16 * 4 + c' / 64);
    SymbolReadsBack(c % 64); SymbolReadsBack(c' % 64);
  }

  lemma Regroup(a: nat, b: nat, c: nat, d: nat)
    requires a < 64 && b < 64 && c < 64 && d < 64
    ensures var x, y, z := a * 4 + b / 16, b % 16 * 16 + c / 4, c % 4 * 64 + d;
            x < 256 && y < 256 && z < 256 && x / 4 == a && x % 4 * 16 + y / 16 == b && y % 16 * 4 + z / 64 == c && z % 64 == d
  {
    var bh, bl, ch, cl := b / 16, b % 16, c / 4, c % 4;
    assert b == 16 * bh + bl && bh < 4 && c == 4 * ch + cl && ch < 16;
    assert (bl * 16 + ch) / 16 == bl && (bl * 16 + ch) % 16 == ch;
    assert (cl * 64 + d) / 64 == cl && (cl * 64 + d) % 64 == d;
  }

  lemma QuadRegroups(a: nat, b: nat, c: nat, d: nat)
    requires a < 64 && b < 64 && c < 64 && d < 64
    ensures var x, y, z := a * 4 + b / 16, b % 16 * 16 + c / 4, c % 4 * 64 + d;
            x < 256 && y < 256 && z < 256 && Quad(x, y, z) == Four(a, b, c, d)
  {
    Regroup(a, b, c, d);
  }

  lemma FourReadsBack(s: string)
    requires |s| == 4 && forall i :: 0 <= i < 4 ==> IsSymbol(s[i])
    ensures Four(ValueOf(s[0]), ValueOf(s[1]), ValueOf(s[2]), ValueOf(s[3])) == s
  {
  }

  lemma Base64OfGroup(a: byte, b: byte, c: byte, rest: seq<byte>)
    ensures Base64([a, b, c] + rest) == Quad(a, b, c) + Base64(rest)
  {
    assert ([a, b, c] + rest)[3..] == rest;
  }

  lemma GroupEncodesBytes(s: string) returns (x: byte, y: byte, z: byte)
    requires |s| == 4 && forall i :: 0 <= i < 4 ==> IsSymbol(s[i])
    ensures Quad(x, y, z) == s
  {
    var a, b, c, d := ValueOf(s[0]), ValueOf(s[1]), ValueOf(s[2]), ValueOf(s[3]);
    QuadRegroups(a, b, c, d);
    FourReadsBack(s);
    x, y, z := a * 4 + b / 16, b % 16 * 16 + c / 4, c % 4 * 64 + d;
  }

  /** Every run of whole unpadded groups is the encoding of some bytes. */
  lemma {:induction false} GroupsEncodeBytes(s: string) returns (bytes: seq<byte>)
    requires |s| % 4 == 0 && forall i :: 0 <= i < |s| ==> IsSymbol(s[i])
    ensures Base64(bytes) == s
  {
    if s == "" {
      bytes := [];
    } else {
      var x, y, z := GroupEncodesBytes(s[..4]);
      var rest := GroupsEncodeBytes(s[4..]);
      bytes := [x, y, z] + rest;
      Base64OfGroup(x, y, z, rest);
      assert s == s[..4] + s[4..];
    }
  }

  lemma {:induction false} Base64IsInjective(a: seq<byte>, b: seq<byte>)
    requires Base64(a) == Base64(b)
    ensures a == b
  {
    if |a| <= 2 || |b| <= 2 {
      ShortIsInjective(a, b);
    } else {
      var qa, qb := Quad(a[0], a[1], a[2]), Quad(b[0], b[1], b[2]);
      assert qa == (qa + Base64(a[3..]))[..4] && qb == (qb + Base64(b[3..]))[..4];
      QuadIsInjective(a[0], a[1], a[2], b[0], b[1], b[2]);
      assert Base64(a[3..]) == Base64(a)[4..] && Base64(b[3..]) == Base64(b)[4..];
      Base64IsInjective(a[3..], b[3..]);
      assert a == a[..3] + a[3..] && b == b[..3] + b[3..];
    }
  }

  /** The padding of the first group tells how many bytes are left. */
  lemma Padding(bytes: seq<byte>)
    requires bytes != []
    ensures |Base64(bytes)| >= 4
    ensures Base64(bytes)[2] == '=' <==> |bytes| == 1
    ensures Base64(bytes)[3] == '=' <==> |bytes| <= 2
    ensures Base64(bytes)[..2] == Quad(bytes[0], if |bytes| > 1 then bytes[1] else 0, if |bytes| > 2 then bytes[2] else 0)[..2]
  {
    var a, b, c := bytes[0], if |bytes| > 1 then bytes[1] else 0, if |bytes| > 2 then bytes[2] else 0;
    SymbolReadsBack(b % 16 * 4 + c / 64);
    SymbolReadsBack(c % 64);
  }

  lemma ShortIsInjective(a: seq<byte>, b: seq<byte>)
    requires Base64(a) == Base64(b) && (|a| <= 2 || |b| <= 2)
    ensures a == b
  {
    if a != [] && b != [] {
      Padding(a);
      Padding(b);
      assert |a| == |b|;
      if |a| == 1 {
        assert Base64(a)[..2] == Base64(b)[..2];
        PairIsInjective(a[0], b[0]);
      } else {
        assert Base64(a)[..3] == Base64(b)[..3];
        TripleIsInjective(a[0], a[1], b[0], b[1]);
      }
    }
  }

  lemma PairIsInjective(a: byte, b: byte)
    requires Quad(a, 0, 0)[..2] == Quad(b, 0, 0)[..2]
    ensures a == b
  {
    assert Quad(a, 0, 0)[2..] == Quad(b, 0, 0)[2..];
    assert Quad(a, 0, 0) == Quad(a, 0, 0)[..2] + Quad(a, 0, 0)[2..];
    assert Quad(b, 0, 0) == Quad(b, 0, 0)[..2] + Quad(b, 0, 0)[2..];
    QuadIsInjective(a, 0, 0, b, 0, 0);
  }

  lemma TripleIsInjective(a: byte, b: byte, a': byte, b': byte)
    requires Quad(a, b, 0)[..3] == Quad(a', b', 0)[..3]
    ensures a == a' && b == b'
  {
    assert Quad(a, b, 0) == Quad(a, b, 0)[..3] + [Symbol(0)];
    assert Quad(a', b', 0) == Quad(a', b', 0)[..3] + [Symbol(0)];
    QuadIsInjective(a, b, 0, a', b', 0);
  }

  // ----- the signed text -----

  function SignPayload(ciphertext: seq<byte>, number: Number, checksum: string): string {
    Base64(ciphertext) + NumberText(number) + checksum
  }

  /** The longer number's text ends in the shorter's, a positive multiple of four digits further back. */
  predicate EndsIn(long: Number, short: Number) {
    && long.Int? && long.value >= 0
    && var l, s := NumberText(long), NumberText(short);
    |l| > |s| && (|l| - |s|) % 4 == 0 && l[|l| - |s|..] == s
  }

  predicate Ambiguous(m: Number, n: Number) {
    EndsIn(m, n) || EndsIn(n, m)
  }

  lemma {:induction false} DigitsAreDigits(n: nat)
    ensures forall i :: 0 <= i < |Digits(n)| ==> IsDigit(Digits(n)[i])
  {
    if n >= 10 { DigitsAreDigits(n / 10); }
  }

  lemma NumberTextIsInjective(m: Number, n: Number)
    requires NumberText(m) == NumberText(n)
    ensures m == n
  {
    if m.Int? && n.Int? {
      TextIsInjective(m.value, n.value);
    } else if m.Int? {
      DigitOrSign(m.value);
    } else if n.Int? {
      DigitOrSign(n.value);
    }
  }

  lemma DigitOrSign(n: int)
    ensures ToText(n) != "" && (IsDigit(ToText(n)[0]) || ToText(n)[0] == '-')
  {
  }

  /** Cutting the checksum off. */
  lemma SameStem(a: string, b: string, c: string, d: string)
    requires a + c == b + d && |c| == |d|
    ensures a == b && c == d
  {
    assert |a| == |b|;
    assert (a + c)[..|a|] == a && (b + d)[..|b|] == b;
    assert (a + c)[|a|..] == c && (b + d)[|b|..] == d;
  }

  /** Two ways of cutting one text in two: the longer tail ends in the shorter, and begins inside the longer head. */
  lemma TwoCuts(e: string, l: string, e': string, s: string)
    requires e + l == e' + s && |l| > |s|
    ensures |e'| == |e| + |l| - |s| && l[|l| - |s|..] == s && e'[|e|] == l[0]
  {
    assert |e + l| == |e' + s|;
    assert l[|l| - |s|..] == (e + l)[|e'|..];
    assert s == (e' + s)[|e'|..];
    assert (e + l)[|e|] == l[0];
    assert (e' + s)[|e|] == e'[|e|];
  }

  lemma LongerEndsInShorter(e: string, m: Number, e': string, n: Number)
    requires Encoded(e) && Encoded(e') && e + NumberText(m) == e' + NumberText(n)
    requires |NumberText(m)| > |NumberText(n)|
    ensures EndsIn(m, n)
  {
    TwoCuts(e, NumberText(m), e', NumberText(n));
    var first := e'[|e|];
    assert IsSymbol(first) || first == '=';
    NumberTextIsNotEmpty(n);
    assert m.Int?;
  }

  lemma NumberTextIsNotEmpty(n: Number)
    ensures |NumberText(n)| >= 1 && (n.NaN? ==> |NumberText(n)| == 3)
  {
    if n.Int? { DigitOrSign(n.value); }
  }

  /** Unless one number's text ends in the other's, the signed text determines ciphertext, number and checksum. */
  lemma FieldsAreDetermined(x: seq<byte>, m: Number, c: string, y: seq<byte>, n: Number, d: string)
    requires |c| == |d| == CHECKSUM_LENGTH && SignPayload(x, m, c) == SignPayload(y, n, d)
    requires !Ambiguous(m, n)
    ensures x == y && m == n && c == d
  {
    Base64Shape(x);
    Base64Shape(y);
    SameStem(Base64(x) + NumberText(m), Base64(y) + NumberText(n), c, d);
    if |NumberText(m)| > |NumberText(n)| {
      LongerEndsInShorter(Base64(x), m, Base64(y), n);
    } else if |NumberText(m)| < |NumberText(n)| {
      LongerEndsInShorter(Base64(y), n, Base64(x), m);
    } else {
      SameStem(Base64(x), Base64(y), NumberText(m), NumberText(n));
      NumberTextIsInjective(m, n);
      Base64IsInjective(x, y);
    }
  }

  /** The same signed text stands for two different snapshots numbered `m` and `n`. */
  ghost predicate Collides(m: Number, n: Number) {
    exists x: seq<byte>, c: string, y: seq<byte>, d: string ::
      |c| == |d| == CHECKSUM_LENGTH && SignPayload(x, m, c) == SignPayload(y, n, d) && !(x == y && m == n && c == d)
  }

  predicate Symbols(s: string, n: int) {
    forall i :: 0 <= i < |s| && i < n ==> IsSymbol(s[i])
  }

  lemma GroupInFront(group: string, rest: string, n: int)
    requires Symbols(group, |group|) && Symbols(rest, n)
    ensures Symbols(group + rest, |group| + n)
  {
  }

  /** Padding stands in the last two places only. */
  lemma {:induction false} PaddingIsLast(bytes: seq<byte>)
    ensures Symbols(Base64(bytes), |Base64(bytes)| - 2)
  {
    if |bytes| == 1 {
      QuadShape(bytes[0], 0, 0);
    } else if |bytes| == 2 {
      QuadShape(bytes[0], bytes[1], 0);
    } else if |bytes| > 2 {
      QuadShape(bytes[0], bytes[1], bytes[2]);
      PaddingIsLast(bytes[3..]);
      GroupInFront(Quad(bytes[0], bytes[1], bytes[2]), Base64(bytes[3..]), |Base64(bytes[3..])| - 2);
    }
  }

  lemma {:induction false} WholeGroupsHaveNone(bytes: seq<byte>)
    requires |bytes| % 3 == 0
    ensures Symbols(Base64(bytes), |Base64(bytes)|)
  {
    if bytes != [] {
      QuadShape(bytes[0], bytes[1], bytes[2]);
      WholeGroupsHaveNone(bytes[3..]);
      GroupInFront(Quad(bytes[0], bytes[1], bytes[2]), Base64(bytes[3..]), |Base64(bytes[3..])|);
    }
  }

  lemma {:induction false} BrokenGroupsEndInPadding(bytes: seq<byte>)
    requires |bytes| % 3 != 0
    ensures Base64(bytes) != "" && Base64(bytes)[|Base64(bytes)| - 1] == '='
  {
    if |bytes| > 2 { BrokenGroupsEndInPadding(bytes[3..]); }
  }

  /** The signed text of this ciphertext under number `m` also reads as some ciphertext under number `n`. */
  ghost predicate Recuts(x: seq<byte>, m: Number, c: string, n: Number) {
    exists y: seq<byte>, d: string :: |d| == CHECKSUM_LENGTH && SignPayload(x, m, c) == SignPayload(y, n, d)
  }

  lemma RecutForward(x: seq<byte>, m: Number, c: string, y: seq<byte>, n: Number, d: string)
    requires |c| == |d| == CHECKSUM_LENGTH && |NumberText(m)| > |NumberText(n)|
    requires SignPayload(x, m, c) == SignPayload(y, n, d)
    ensures EndsIn(m, n) && |x| % 3 == 0
  {
    var e, e', l, s := Base64(x), Base64(y), NumberText(m), NumberText(n);
    Base64Shape(x);
    Base64Shape(y);
    SameStem(e + l, e' + s, c, d);
    LongerEndsInShorter(e, m, e', n);
    TwoCuts(e, l, e', s);
    if |x| % 3 != 0 { BrokenGroupsEndInPadding(x); }
    PaddingIsLast(y);
    if e != "" {
      assert (e + l)[|e| - 1] == e[|e| - 1];
      assert (e' + s)[|e| - 1] == e'[|e| - 1];
      assert IsSymbol(e'[|e| - 1]);
    }
  }

  lemma DigitsAfterSymbols(e: string, p: string)
    requires |e| % 4 == 0 && |p| % 4 == 0 && forall i :: 0 <= i < |e| ==> IsSymbol(e[i])
    requires forall i :: 0 <= i < |p| ==> IsDigit(p[i])
    ensures |e + p| % 4 == 0 && forall i :: 0 <= i < |e + p| ==> IsSymbol((e + p)[i])
  {
    MultiplesAdd(|e|, |p|);
    AllOfBoth(e, p, IsSymbol);
  }

  lemma LongerCiphertext(x: seq<byte>, p: string) returns (y: seq<byte>)
    requires |x| % 3 == 0 && |p| % 4 == 0 && forall i :: 0 <= i < |p| ==> IsDigit(p[i])
    ensures Base64(y) == Base64(x) + p
  {
    WholeGroupsHaveNone(x);
    Base64Shape(x);
    DigitsAfterSymbols(Base64(x), p);
    y := GroupsEncodeBytes(Base64(x) + p);
  }

  lemma MoveText(e: string, p: string, s: string, c: string)
    ensures e + (p + s) + c == (e + p) + s + c
  {
    assert e + (p + s) == (e + p) + s;
  }

  lemma RecutBackward(x: seq<byte>, m: Number, c: string, n: Number) returns (y: seq<byte>)
    requires EndsIn(m, n) && |x| % 3 == 0
    ensures SignPayload(x, m, c) == SignPayload(y, n, c)
  {
    var l, s := NumberText(m), NumberText(n);
    var p := l[..|l| - |s|];
    DigitsAreDigits(m.value);
    y := LongerCiphertext(x, p);
    assert l == p + s;
    MoveText(Base64(x), p, s, c);
  }

  /**
    For a given snapshot, exactly when its number can be shortened without changing the signed text: the
    longer number ends in the shorter one, and the ciphertext's Base64 text carries no padding.
   */
  lemma RecutsExactly(x: seq<byte>, m: Number, c: string, n: Number)
    requires |c| == CHECKSUM_LENGTH && |NumberText(m)| > |NumberText(n)|
    ensures Recuts(x, m, c, n) <==> EndsIn(m, n) && |x| % 3 == 0
  {
    if Recuts(x, m, c, n) {
      var y: seq<byte>, d: string :| |d| == CHECKSUM_LENGTH && SignPayload(x, m, c) == SignPayload(y, n, d);
      RecutForward(x, m, c, y, n, d);
    } else if EndsIn(m, n) && |x| % 3 == 0 {
      var y := RecutBackward(x, m, c, n);
    }
  }

  lemma EndingCollides(m: Number, n: Number)
    requires EndsIn(m, n)
    ensures Collides(m, n) && Collides(n, m)
  {
    var x: seq<byte> := [0, 0, 0];
    var c := seq(CHECKSUM_LENGTH, _ => '0');
    var y := RecutBackward(x, m, c, n);
    assert m != n;
    assert SignPayload(y, n, c) == SignPayload(x, m, c);
  }

  /** Which pairs of numbers leave the signed text ambiguous, exactly. */
  lemma CollidesExactly(m: Number, n: Number)
    ensures Collides(m, n) <==> Ambiguous(m, n)
  {
    if EndsIn(m, n) { EndingCollides(m, n); }
    if EndsIn(n, m) { EndingCollides(n, m); }
    if !Ambiguous(m, n) && Collides(m, n) {
      var x, c, y, d :| |c| == |d| == CHECKSUM_LENGTH && SignPayload(x, m, c) == SignPayload(y, n, d)
        && !(x == y && m == n && c == d);
      FieldsAreDetermined(x, m, c, y, n, d);
    }
  }

  lemma TextOf10001()
    ensures Digits(10_001) == "10001" && Digits(1) == "1"
  {
    assert Digits(10) == "10";
    assert Digits(100) == "100";
    assert Digits(1000) == "1000";
  }

  lemma ShortTextsAreUnambiguous(m: Number, n: Number)
    requires 1 <= |NumberText(m)| <= 4 && 1 <= |NumberText(n)| <= 4
    ensures !Ambiguous(m, n)
  {
    TooClose(|NumberText(m)|, |NumberText(n)|);
    TooClose(|NumberText(n)|, |NumberText(m)|);
  }

  lemma TooClose(a: nat, b: nat)
    requires 1 <= b && a <= 4
    ensures !(a > b && (a - b) % 4 == 0)
  {
  }

  /** Snapshot numbers below 10 000 never leave the signed text ambiguous; 10 001 and 1 do. */
  lemma FirstTenThousandAreSafe(m: nat, n: nat)
    requires m < 10_000 && n < 10_000
    ensures !Collides(Int(m), Int(n))
  {
    AtMostFourDigits(m);
    AtMostFourDigits(n);
    ShortTextsAreUnambiguous(Int(m), Int(n));
    CollidesExactly(Int(m), Int(n));
  }

  /** Every snapshot numbered 10 001 whose ciphertext fills its Base64 groups also reads as one numbered 1. */
  lemma TenThousandAndOneCollides(x: seq<byte>, c: string)
    requires |c| == CHECKSUM_LENGTH
    ensures Recuts(x, Int(10_001), c, Int(1)) <==> |x| % 3 == 0
  {
    TextOf10001();
    assert "10001"[4..] == "1";
    RecutsExactly(x, Int(10_001), c, Int(1));
  }

  lemma AtMostFourDigits(n: nat)
    requires n < 10_000
    ensures 1 <= |Digits(n)| <= 4
  {
    assert n >= 10 ==> |Digits(n)| == |Digits(n / 10)| + 1;
    assert n >= 100 ==> |Digits(n / 10)| == |Digits(n / 10 / 10)| + 1;
    assert n >= 1000 ==> |Digits(n / 10 / 10)| == |Digits(n / 10 / 10 / 10)| + 1;
  }
}

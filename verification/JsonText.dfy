/** JSON values as `JSON.stringify` prints them without white space (sections 4 to 7 of RFC 8259), and a parser. */
module JsonText {
  import opened Prelude

  /** A UTF-16 code unit, which is what a JavaScript string is made of. */
  type Unit = u: nat | u < 0x1_0000
  type Text = seq<Unit>

  /** A number is the text it prints as; an object is its own enumerable members in enumeration order. */
  datatype Json = Null | True | False | Num(lexeme: Text) | Str(text: Text) | Arr(items: seq<Json>) | Obj(members: seq<Member>)
  datatype Member = Member(key: Text, value: Json)

  const QUOTE: Unit := 0x22
  const COMMA: Unit := 0x2C
  const COLON: Unit := 0x3A
  const BACKSLASH: Unit := 0x5C
  const OPEN_ARRAY: Unit := 0x5B
  const CLOSE_ARRAY: Unit := 0x5D
  const OPEN_OBJECT: Unit := 0x7B
  const CLOSE_OBJECT: Unit := 0x7D
  const LETTER_U: Unit := 0x75

  const NULL: Text := [0x6E, 0x75, 0x6C, 0x6C]
  const TRUE: Text := [0x74, 0x72, 0x75, 0x65]
  const FALSE: Text := [0x66, 0x61, 0x6C, 0x73, 0x65]

  // ----- numbers -----

  predicate IsDigit(u: Unit) { 0x30 <= u <= 0x39 }

  predicate IsNumberUnit(u: Unit) {
    IsDigit(u) || u == 0x2D || u == 0x2B || u == 0x2E || u == 0x65 || u == 0x45
  }

  function SkipDigits(t: Text): (r: Text)
    ensures |r| <= |t|
  {
    if t != [] && IsDigit(t[0]) then SkipDigits(t[1..]) else t
  }

  predicate IsExponent(t: Text) {
    || t == []
    || ((t[0] == 0x65 || t[0] == 0x45) &&
        var u := if |t| > 1 && (t[1] == 0x2B || t[1] == 0x2D) then t[2..] else t[1..];
        u != [] && IsDigit(u[0]) && SkipDigits(u) == [])
  }

  predicate IsFraction(t: Text) {
    if t != [] && t[0] == 0x2E then |t| > 1 && IsDigit(t[1]) && IsExponent(SkipDigits(t[1..])) else IsExponent(t)
  }

  /** The number grammar: a sign, an integer without leading zeros, a fraction, an exponent. */
  predicate IsNumber(t: Text) {
    var u := if t != [] && t[0] == 0x2D then t[1..] else t;
    u != [] && IsDigit(u[0]) && IsFraction(if u[0] == 0x30 then u[1..] else SkipDigits(u))
  }

  predicate NumberUnits(t: Text) {
    forall i :: 0 <= i < |t| ==> IsNumberUnit(t[i])
  }

  lemma {:induction false} SkippedDigits(t: Text)
    requires NumberUnits(SkipDigits(t))
    ensures NumberUnits(t)
  {
    if t != [] && IsDigit(t[0]) {
      SkippedDigits(t[1..]);
      assert t == [t[0]] + t[1..];
    }
  }

  lemma NumbersAreNumberUnits(t: Text)
    requires IsNumber(t)
    ensures t != [] && NumberUnits(t) && (IsDigit(t[0]) || t[0] == 0x2D)
  {
    var u := if t[0] == 0x2D then t[1..] else t;
    var f := if u[0] == 0x30 then u[1..] else SkipDigits(u);
    FractionUnits(f);
    if u[0] != 0x30 { SkippedDigits(u); }
    assert u == [u[0]] + u[1..];
    assert t == [t[0]] + t[1..];
  }

  lemma FractionUnits(t: Text)
    requires IsFraction(t)
    ensures NumberUnits(t)
  {
    if t != [] && t[0] == 0x2E {
      ExponentUnits(SkipDigits(t[1..]));
      SkippedDigits(t[1..]);
      assert t == [t[0]] + t[1..];
    } else {
      ExponentUnits(t);
    }
  }

  lemma ExponentUnits(t: Text)
    requires IsExponent(t)
    ensures NumberUnits(t)
  {
    if t != [] {
      if |t| > 1 && (t[1] == 0x2B || t[1] == 0x2D) {
        SkippedDigits(t[2..]);
        assert t == [t[0], t[1]] + t[2..];
      } else {
        SkippedDigits(t[1..]);
        assert t == [t[0]] + t[1..];
      }
    }
  }

  /** How many number units open `t`. */
  function Munch(t: Text): (n: nat)
    ensures n <= |t|
  {
    if t != [] && IsNumberUnit(t[0]) then Munch(t[1..]) + 1 else 0
  }

  lemma {:induction false} MunchTakes(t: Text, rest: Text)
    requires NumberUnits(t) && (rest == [] || !IsNumberUnit(rest[0]))
    ensures Munch(t + rest) == |t|
  {
    if t == [] {
      assert t + rest == rest;
    } else {
      assert (t + rest)[1..] == t[1..] + rest;
      MunchTakes(t[1..], rest);
    }
  }

  // ----- strings -----

  predicate IsHigh(u: Unit) { 0xD800 <= u <= 0xDBFF }
  predicate IsLow(u: Unit) { 0xDC00 <= u <= 0xDFFF }

  function Hex(d: nat): Unit
    requires d < 16
  {
    if d < 10 then 0x30 + d else 0x57 + d
  }

  function HexValue(u: Unit): Option<nat> {
    if IsDigit(u) then Some(u - 0x30)
    else if 0x61 <= u <= 0x66 then Some(u - 0x57)
    else if 0x41 <= u <= 0x46 then Some(u - 0x37)
    else None
  }

  function Unicode(u: Unit): Text {
    var v := u / 16;
    var w := v / 16;
    [BACKSLASH, LETTER_U, Hex(w / 16), Hex(w % 16), Hex(v % 16), Hex(u % 16)]
  }

  /** The letter of a two-unit escape. */
  function Letter(u: Unit): Option<Unit> {
    match u
    case 0x22 => Some(0x22)
    case 0x5C => Some(0x5C)
    case 0x08 => Some(0x62)
    case 0x0C => Some(0x66)
    case 0x0A => Some(0x6E)
    case 0x0D => Some(0x72)
    case 0x09 => Some(0x74)
    case _ => None
  }

  /** One code unit, as it prints outside a surrogate pair. */
  function Escaped(u: Unit): Text {
    if Letter(u).Some? then [BACKSLASH, Letter(u).value]
    else if u < 0x20 || IsHigh(u) || IsLow(u) then Unicode(u)
    else [u]
  }

  function Body(s: Text): Text {
    if s == [] then []
    else if |s| > 1 && IsHigh(s[0]) && IsLow(s[1]) then s[..2] + Body(s[2..])
    else Escaped(s[0]) + Body(s[1..])
  }

  function Quoted(s: Text): Text {
    [QUOTE] + Body(s) + [QUOTE]
  }

  /** What a two-unit escape stands for; the parser also takes the slash, which is never printed escaped. */
  function Unescape(u: Unit): Option<Unit> {
    match u
    case 0x22 => Some(0x22)
    case 0x5C => Some(0x5C)
    case 0x2F => Some(0x2F)
    case 0x62 => Some(0x08)
    case 0x66 => Some(0x0C)
    case 0x6E => Some(0x0A)
    case 0x72 => Some(0x0D)
    case 0x74 => Some(0x09)
    case _ => None
  }

  function FromHex(t: Text): Option<Unit>
    requires |t| == 4
  {
    var a, b, c, d := HexValue(t[0]), HexValue(t[1]), HexValue(t[2]), HexValue(t[3]);
    if a.None? || b.None? || c.None? || d.None? then None
    else if a.value > 15 || b.value > 15 || c.value > 15 || d.value > 15 then None
    else Some(0x1000 * a.value + 0x100 * b.value + 0x10 * c.value + d.value)
  }

  /** One code unit of a string and the text after it. */
  function ParseUnit(t: Text): (r: Option<(Unit, Text)>)
    ensures r.Some? ==> |r.value.1| < |t|
  {
    if t == [] || t[0] == QUOTE || t[0] < 0x20 then None
    else if t[0] != BACKSLASH then Some((t[0], t[1..]))
    else if |t| > 1 && Unescape(t[1]).Some? then Some((Unescape(t[1]).value, t[2..]))
    else if |t| > 5 && t[1] == LETTER_U && FromHex(t[2..6]).Some? then Some((FromHex(t[2..6]).value, t[6..]))
    else None
  }

  /** The rest of a string, up to and including its closing quote. */
  function ParseChars(t: Text): (r: Option<(Text, Text)>)
    ensures r.Some? ==> |r.value.1| < |t|
    decreases |t|
  {
    if t != [] && t[0] == QUOTE then Some(([], t[1..]))
    else
      var one := ParseUnit(t);
      if one == None then None
      else
        var more := ParseChars(one.value.1);
        if more == None then None else Some(([one.value.0] + more.value.0, more.value.1))
  }

  lemma DigitReadsBack(d: nat)
    requires d < 16
    ensures HexValue(Hex(d)) == Some(d)
  {
  }

  lemma HexReadsBack(u: Unit)
    ensures FromHex(Unicode(u)[2..]) == Some(u)
  {
    var v := u / 16;
    var w := v / 16;
    DigitReadsBack(w / 16);
    DigitReadsBack(w % 16);
    DigitReadsBack(v % 16);
    DigitReadsBack(u % 16);
    assert Unicode(u)[2..] == [Hex(w / 16), Hex(w % 16), Hex(v % 16), Hex(u % 16)];
  }

  lemma EscapeReadsBack(t: Text, rest: Text)
    requires |t| == 6 && t[..2] == [BACKSLASH, LETTER_U] && FromHex(t[2..]).Some?
    ensures ParseUnit(t + rest) == Some((FromHex(t[2..]).value, rest))
  {
    var all := t + rest;
    assert all[0] == t[..2][0] && all[1] == t[..2][1];
    assert all[2..6] == t[2..] && all[6..] == rest;
    assert Unescape(LETTER_U) == None;
  }

  lemma UnitReadsBack(u: Unit, rest: Text)
    ensures Escaped(u)[0] != QUOTE
    ensures ParseUnit(Escaped(u) + rest) == Some((u, rest))
  {
    if Letter(u).Some? {
      assert ([BACKSLASH, Letter(u).value] + rest)[2..] == rest;
    } else if u < 0x20 || IsHigh(u) || IsLow(u) {
      HexReadsBack(u);
      EscapeReadsBack(Unicode(u), rest);
    } else {
      assert ([u] + rest)[1..] == rest;
    }
  }

  lemma CharsFromUnit(t: Text, u: Unit, after: Text, s: Text, rest: Text)
    requires t != [] && t[0] != QUOTE && ParseUnit(t) == Some((u, after)) && ParseChars(after) == Some((s, rest))
    ensures ParseChars(t) == Some(([u] + s, rest))
  {
  }

  lemma SurrogateReadsBack(u: Unit, rest: Text)
    requires IsHigh(u) || IsLow(u)
    ensures ParseUnit([u] + rest) == Some((u, rest))
  {
    assert ([u] + rest)[1..] == rest;
  }

  lemma PairReadsBack(u: Unit, v: Unit, after: Text, s: Text, rest: Text)
    requires IsHigh(u) && IsLow(v) && ParseChars(after) == Some((s, rest))
    ensures ParseChars([u, v] + after) == Some(([u, v] + s, rest))
  {
    SurrogateReadsBack(v, after);
    SurrogateReadsBack(u, [v] + after);
    CharsFromUnit([v] + after, v, after, s, rest);
    CharsFromUnit([u] + ([v] + after), u, [v] + after, [v] + s, rest);
    assert [u] + ([v] + after) == [u, v] + after && [u] + ([v] + s) == [u, v] + s;
  }

  lemma SingleReadsBack(u: Unit, after: Text, s: Text, rest: Text)
    requires ParseChars(after) == Some((s, rest))
    ensures ParseChars(Escaped(u) + after) == Some(([u] + s, rest))
  {
    UnitReadsBack(u, after);
    CharsFromUnit(Escaped(u) + after, u, after, s, rest);
  }

  lemma Regroup(a: Text, b: Text, c: Text)
    ensures (a + b) + c == a + (b + c)
  {
  }

  lemma {:induction false} CharsReadBack(s: Text, rest: Text)
    ensures ParseChars(Body(s) + ([QUOTE] + rest)) == Some((s, rest))
  {
    var close := [QUOTE] + rest;
    if s == [] {
      assert Body(s) + close == close && close[1..] == rest;
    } else if |s| > 1 && IsHigh(s[0]) && IsLow(s[1]) {
      CharsReadBack(s[2..], rest);
      PairReadsBack(s[0], s[1], Body(s[2..]) + close, s[2..], rest);
      assert s[..2] == [s[0], s[1]] && s[..2] + s[2..] == s;
      Regroup(s[..2], Body(s[2..]), close);
    } else {
      CharsReadBack(s[1..], rest);
      SingleReadsBack(s[0], Body(s[1..]) + close, s[1..], rest);
      assert [s[0]] + s[1..] == s;
      Regroup(Escaped(s[0]), Body(s[1..]), close);
    }
  }

  // ----- values -----

  function Print(v: Json): Text
    decreases v
  {
    match v
    case Null => NULL
    case True => TRUE
    case False => FALSE
    case Num(lexeme) => lexeme
    case Str(text) => Quoted(text)
    case Arr(items) =>
      [OPEN_ARRAY] + if items == [] then [CLOSE_ARRAY] else Print(items[0]) + PrintItems(items[1..])
    case Obj(members) =>
      [OPEN_OBJECT] + if members == [] then [CLOSE_OBJECT] else PrintMember(members[0]) + PrintMembers(members[1..])
  }

  function PrintItems(items: seq<Json>): Text
    decreases items
  {
    if items == [] then [CLOSE_ARRAY] else [COMMA] + Print(items[0]) + PrintItems(items[1..])
  }

  function PrintMember(m: Member): Text
    decreases m
  {
    Quoted(m.key) + [COLON] + Print(m.value)
  }

  function PrintMembers(members: seq<Member>): Text
    decreases members
  {
    if members == [] then [CLOSE_OBJECT] else [COMMA] + PrintMember(members[0]) + PrintMembers(members[1..])
  }

  function ParseWord(t: Text, word: Text, v: Json): (r: Option<(Json, Text)>)
    requires word != []
    ensures r.Some? ==> |r.value.1| < |t|
  {
    if word <= t then Some((v, t[|word|..])) else None
  }

  /** A value and the text after it. */
  function Parse(t: Text): (r: Option<(Json, Text)>)
    ensures r.Some? ==> |r.value.1| < |t|
    decreases |t|, 0
  {
    if t == [] then None
    else if t[0] == 0x6E then ParseWord(t, NULL, Null)
    else if t[0] == 0x74 then ParseWord(t, TRUE, True)
    else if t[0] == 0x66 then ParseWord(t, FALSE, False)
    else if t[0] == QUOTE then
      var s := ParseChars(t[1..]);
      if s == None then None else Some((Str(s.value.0), s.value.1))
    else if t[0] == OPEN_ARRAY then
      if |t| > 1 && t[1] == CLOSE_ARRAY then Some((Arr([]), t[2..]))
      else
        var first := Parse(t[1..]);
        if first == None then None
        else
          var more := ParseItems(first.value.1);
          if more == None then None else Some((Arr([first.value.0] + more.value.0), more.value.1))
    else if t[0] == OPEN_OBJECT then
      if |t| > 1 && t[1] == CLOSE_OBJECT then Some((Obj([]), t[2..]))
      else
        var first := ParseMember(t[1..]);
        if first == None then None
        else
          var more := ParseMembers(first.value.1);
          if more == None then None else Some((Obj([first.value.0] + more.value.0), more.value.1))
    else
      var n := Munch(t);
      if IsNumber(t[..n]) then Some((Num(t[..n]), t[n..])) else None
  }

  function ParseItems(t: Text): (r: Option<(seq<Json>, Text)>)
    ensures r.Some? ==> |r.value.1| < |t|
    decreases |t|, 0
  {
    if t == [] then None
    else if t[0] == CLOSE_ARRAY then Some(([], t[1..]))
    else if t[0] != COMMA then None
    else
      var first := Parse(t[1..]);
      if first == None then None
      else
        var more := ParseItems(first.value.1);
        if more == None then None else Some(([first.value.0] + more.value.0, more.value.1))
  }

  function ParseMember(t: Text): (r: Option<(Member, Text)>)
    ensures r.Some? ==> |r.value.1| < |t|
    decreases |t|, 1
  {
    if t == [] || t[0] != QUOTE then None
    else
      var key := ParseChars(t[1..]);
      if key == None || key.value.1 == [] || key.value.1[0] != COLON then None
      else
        var value := Parse(key.value.1[1..]);
        if value == None then None else Some((Member(key.value.0, value.value.0), value.value.1))
  }

  function ParseMembers(t: Text): (r: Option<(seq<Member>, Text)>)
    ensures r.Some? ==> |r.value.1| < |t|
    decreases |t|, 0
  {
    if t == [] then None
    else if t[0] == CLOSE_OBJECT then Some(([], t[1..]))
    else if t[0] != COMMA then None
    else
      var first := ParseMember(t[1..]);
      if first == None then None
      else
        var more := ParseMembers(first.value.1);
        if more == None then None else Some(([first.value.0] + more.value.0, more.value.1))
  }

  // ----- what is printed is read back -----

  /** Every number prints as one. */
  predicate Printable(v: Json)
    decreases v
  {
    match v
    case Num(lexeme) => IsNumber(lexeme)
    case Arr(items) => forall i :: 0 <= i < |items| ==> Printable(items[i])
    case Obj(members) => forall i :: 0 <= i < |members| ==> Printable(members[i].value)
    case _ => true
  }

  /** `rest` does not carry on a number. */
  predicate Apart(rest: Text) {
    rest == [] || !IsNumberUnit(rest[0])
  }

  lemma WordReadsBack(v: Json, rest: Text)
    requires v.Null? || v.True? || v.False?
    ensures Parse(Print(v) + rest) == Some((v, rest))
  {
    var t := Print(v) + rest;
    assert t[|Print(v)|..] == rest && Print(v) <= t && t[0] == Print(v)[0];
  }

  lemma NumberReadsBack(lexeme: Text, rest: Text)
    requires IsNumber(lexeme) && Apart(rest)
    ensures Parse(lexeme + rest) == Some((Num(lexeme), rest))
  {
    var t := lexeme + rest;
    NumbersAreNumberUnits(lexeme);
    MunchTakes(lexeme, rest);
    assert t[..|lexeme|] == lexeme && t[|lexeme|..] == rest && t[0] == lexeme[0];
  }

  lemma StringReadsBack(s: Text, rest: Text)
    ensures Parse(Quoted(s) + rest) == Some((Str(s), rest))
  {
    var t := Quoted(s) + rest;
    CharsReadBack(s, rest);
    assert t[0] == QUOTE && t[1..] == Body(s) + ([QUOTE] + rest);
  }

  /** The parser is a left inverse of the printer, whatever follows. */
  lemma {:induction false} ValueReadsBack(v: Json, rest: Text)
    requires Printable(v) && Apart(rest)
    ensures Parse(Print(v) + rest) == Some((v, rest))
    decreases v, 1
  {
    match v
    case Null => WordReadsBack(v, rest);
    case True => WordReadsBack(v, rest);
    case False => WordReadsBack(v, rest);
    case Num(lexeme) => NumberReadsBack(lexeme, rest);
    case Str(text) => StringReadsBack(text, rest);
    case Arr(items) => ArrayReadsBack(v, rest);
    case Obj(members) => ObjectReadsBack(v, rest);
  }

  /** How a printed value may begin. */
  lemma FirstUnit(v: Json)
    requires Printable(v)
    ensures Print(v) != [] && Print(v)[0] != CLOSE_ARRAY && Print(v)[0] != CLOSE_OBJECT
  {
    if v.Num? { NumbersAreNumberUnits(v.lexeme); }
  }

  lemma {:induction false} ArrayReadsBack(v: Json, rest: Text)
    requires v.Arr? && Printable(v)
    ensures Parse(Print(v) + rest) == Some((v, rest))
    decreases v, 0
  {
    var t := Print(v) + rest;
    if v.items == [] {
      assert t[2..] == rest;
    } else {
      var after := PrintItems(v.items[1..]) + rest;
      FirstUnit(v.items[0]);
      assert t[1..] == Print(v.items[0]) + after;
      ValueReadsBack(v.items[0], after);
      ItemsReadBack(v.items[1..], rest);
      assert [v.items[0]] + v.items[1..] == v.items;
    }
  }

  lemma {:induction false} ItemsReadBack(items: seq<Json>, rest: Text)
    requires forall i :: 0 <= i < |items| ==> Printable(items[i])
    ensures ParseItems(PrintItems(items) + rest) == Some((items, rest))
    decreases items, 0
  {
    var t := PrintItems(items) + rest;
    if items == [] {
      assert t[1..] == rest;
    } else {
      var after := PrintItems(items[1..]) + rest;
      assert t[1..] == Print(items[0]) + after;
      ValueReadsBack(items[0], after);
      ItemsReadBack(items[1..], rest);
      assert [items[0]] + items[1..] == items;
    }
  }

  lemma {:induction false} ObjectReadsBack(v: Json, rest: Text)
    requires v.Obj? && Printable(v)
    ensures Parse(Print(v) + rest) == Some((v, rest))
    decreases v, 0
  {
    var t := Print(v) + rest;
    if v.members == [] {
      assert t[2..] == rest;
    } else {
      var after := PrintMembers(v.members[1..]) + rest;
      assert t[1..] == PrintMember(v.members[0]) + after;
      MemberReadsBack(v.members[0], after);
      MembersReadBack(v.members[1..], rest);
      assert [v.members[0]] + v.members[1..] == v.members;
    }
  }

  lemma MemberFromParts(chars: Text, key: Text, after: Text, v: Json, rest: Text)
    requires ParseChars(chars) == Some((key, [COLON] + after)) && Parse(after) == Some((v, rest))
    ensures ParseMember([QUOTE] + chars) == Some((Member(key, v), rest))
  {
    assert ([QUOTE] + chars)[1..] == chars;
    assert ([COLON] + after)[1..] == after;
  }

  lemma MemberParts(m: Member, rest: Text)
    ensures PrintMember(m) + rest == [QUOTE] + (Body(m.key) + ([QUOTE] + ([COLON] + (Print(m.value) + rest))))
  {
  }

  lemma {:induction false} MemberReadsBack(m: Member, rest: Text)
    requires Printable(m.value) && Apart(rest)
    ensures PrintMember(m)[0] == QUOTE
    ensures ParseMember(PrintMember(m) + rest) == Some((m, rest))
    decreases m, 0
  {
    var after := Print(m.value) + rest;
    CharsReadBack(m.key, [COLON] + after);
    ValueReadsBack(m.value, rest);
    MemberFromParts(Body(m.key) + ([QUOTE] + ([COLON] + after)), m.key, after, m.value, rest);
    MemberParts(m, rest);
  }

  lemma {:induction false} MembersReadBack(members: seq<Member>, rest: Text)
    requires forall i :: 0 <= i < |members| ==> Printable(members[i].value)
    ensures ParseMembers(PrintMembers(members) + rest) == Some((members, rest))
    decreases members, 0
  {
    var t := PrintMembers(members) + rest;
    if members == [] {
      assert t[1..] == rest;
    } else {
      var after := PrintMembers(members[1..]) + rest;
      assert t[1..] == PrintMember(members[0]) + after;
      MemberReadsBack(members[0], after);
      MembersReadBack(members[1..], rest);
      assert [members[0]] + members[1..] == members;
    }
  }

  /** Different values print differently. */
  lemma PrintIsInjective(a: Json, b: Json)
    requires Printable(a) && Printable(b) && Print(a) == Print(b)
    ensures a == b
  {
    ValueReadsBack(a, []);
    ValueReadsBack(b, []);
    assert Print(a) + [] == Print(b) + [];
  }
}

/** White space and hexadecimal integers in Python's texts. */
module PythonText {
  import opened Basics

  /** The characters `str.split()` separates words at and `int()` strips. */
  predicate IsSpace(c: char) {
    var u := c as int;
    || 0x09 <= u <= 0x0D || 0x1C <= u <= 0x20 || u == 0x85 || u == 0xA0 || u == 0x1680
    || 0x2000 <= u <= 0x200A || u == 0x2028 || u == 0x2029 || u == 0x202F || u == 0x205F || u == 0x3000
  }

  function Stripped(s: string): string
    decreases |s|
  {
    if s == [] then []
    else if IsSpace(s[0]) then Stripped(s[1..])
    else if IsSpace(s[|s| - 1]) then Stripped(s[..|s| - 1])
    else s
  }

  predicate IsHexDigit(c: char) {
    '0' <= c <= '9' || 'a' <= c <= 'f' || 'A' <= c <= 'F'
  }

  function HexDigitValue(c: char): (d: nat)
    requires IsHexDigit(c)
    ensures d < 16
  {
    if c <= '9' then c as int - '0' as int
    else if c <= 'F' then c as int - 'A' as int + 10
    else c as int - 'a' as int + 10
  }

  /** The number of a run of digits, which single underscores may separate. */
  function HexDigits(s: string): Option<nat>
    decreases |s|
  {
    if s == [] || !IsHexDigit(s[|s| - 1]) then None
    else
      var digit := HexDigitValue(s[|s| - 1]);
      if |s| == 1 then Some(digit)
      else
        var init := s[..|s| - 1];
        var before := HexDigits(if init[|init| - 1] == '_' then init[..|init| - 1] else init);
        if before.None? then None else Some(16 * before.value + digit)
  }

  function Unsigned(s: string): string {
    if s != [] && (s[0] == '+' || s[0] == '-') then s[1..] else s
  }

  function Unprefixed(s: string): string {
    if |s| >= 2 && s[0] == '0' && (s[1] == 'x' || s[1] == 'X')
    then if |s| >= 3 && s[2] == '_' then s[3..] else s[2..]
    else s
  }

  /** `hex_to_int`: the number a text reads as in base 16, `None` when that raises. */
  function HexNumber(text: string): Option<int> {
    if text == [] then Some(0)
    else
      var s := Stripped(text);
      var n := HexDigits(Unprefixed(Unsigned(s)));
      if n.None? then None
      else
        var number: int := if s != [] && s[0] == '-' then -(n.value as int) else n.value;
        Some(number)
  }

  // ----- printing

  function HexChar(d: nat): (c: char)
    requires d < 16
    ensures IsHexDigit(c) && HexDigitValue(c) == d
  {
    if d < 10 then (d + '0' as int) as char else (d - 10 + 'a' as int) as char
  }

  function HexText(n: nat): (s: string)
    ensures s != [] && forall i :: 0 <= i < |s| ==> IsHexDigit(s[i])
  {
    if n < 16 then [HexChar(n)] else HexText(n / 16) + [HexChar(n % 16)]
  }

  /** `int_to_hex`. */
  function IntToHex(n: int): string {
    if n < 0 then "-0x" + HexText(-n) else "0x" + HexText(n)
  }

  lemma {:induction false} HexDigitsOfText(n: nat)
    ensures HexDigits(HexText(n)) == Some(n)
  {
    if n >= 16 {
      var text := HexText(n);
      HexDigitsOfText(n / 16);
      assert text[..|text| - 1] == HexText(n / 16);
    }
  }

  /** Printed digits have a digit at the end, so nothing is stripped from a printed integer. */
  lemma NothingStripped(prefix: string, digits: string)
    requires prefix != [] && !IsSpace(prefix[0]) && digits != [] && IsHexDigit(digits[|digits| - 1])
    ensures Stripped(prefix + digits) == prefix + digits
  {
    var text := prefix + digits;
    assert text[|text| - 1] == digits[|digits| - 1] && text[0] == prefix[0];
  }

  lemma PrefixRemoved(digits: string)
    requires digits != [] && IsHexDigit(digits[0])
    ensures Unsigned("-0x" + digits) == "0x" + digits == Unsigned("0x" + digits)
    ensures Unprefixed("0x" + digits) == digits
  {
    assert ("-0x" + digits)[1..] == "0x" + digits;
  }

  /** Reading a printed integer gives it back, whatever its sign and number of digits. */
  lemma HexRoundTrip(n: int)
    ensures HexNumber(IntToHex(n)) == Some(n)
  {
    hide Stripped, Unsigned, Unprefixed, HexDigits, HexText, IsHexDigit;
    var digits := HexText(if n < 0 then -n else n);
    HexDigitsOfText(if n < 0 then -n else n);
    PrefixRemoved(digits);
    NothingStripped("-0x", digits);
    NothingStripped("0x", digits);
  }

  // ----- other spellings

  /** The white space of Python's texts, character by character. */
  lemma SpacesExactly(c: char)
    ensures IsSpace(c) <==>
              c as int in {9, 10, 11, 12, 13, 28, 29, 30, 31, 32, 133, 160, 5760, 8192, 8193, 8194, 8195, 8196, 8197,
                           8198, 8199, 8200, 8201, 8202, 8232, 8233, 8239, 8287, 12288}
  {
  }

  predicate Blank(s: string) {
    forall i :: 0 <= i < |s| ==> IsSpace(s[i])
  }

  /** Surrounding white space is stripped, however much there is. */
  lemma {:induction false} SurroundingSpace(a: string, s: string, b: string)
    requires Blank(a) && Blank(b) && s != [] && !IsSpace(s[0]) && !IsSpace(s[|s| - 1])
    ensures Stripped(a + s + b) == s
    decreases |a| + |b|
  {
    var text := a + s + b;
    if a != [] {
      assert text[0] == a[0] && text[1..] == a[1..] + s + b;
      SurroundingSpace(a[1..], s, b);
    } else if b != [] {
      assert text[0] == s[0] && text[|text| - 1] == b[|b| - 1];
      assert text[..|text| - 1] == a + s + b[..|b| - 1];
      SurroundingSpace(a, s, b[..|b| - 1]);
    } else {
      assert text == s;
    }
  }

  lemma LastDropped(a: string, b: string)
    requires b != []
    ensures (a + b)[..|a + b| - 1] == a + b[..|b| - 1] && (a + b)[|a + b| - 1] == b[|b| - 1]
  {
  }

  /** One underscore between digits changes nothing. */
  lemma {:induction false} UnderscoreBetween(a: string, b: string)
    requires HexDigits(a).Some? && b != [] && forall i :: 0 <= i < |b| ==> IsHexDigit(b[i])
    ensures HexDigits(a + "_" + b) == HexDigits(a + b)
    decreases |b|
  {
    var n := |b| - 1;
    LastDropped(a + "_", b);
    LastDropped(a, b);
    if n == 0 {
      assert a + "_" + b[..n] == a + "_" && a + b[..n] == a && (a + "_")[..|a|] == a;
      assert a[|a| - 1] != '_';
    } else {
      LastDropped(a + "_", b[..n]);
      LastDropped(a, b[..n]);
      UnderscoreBetween(a, b[..n]);
    }
  }

  function UpperHexChar(d: nat): (c: char)
    requires d < 16
    ensures IsHexDigit(c) && HexDigitValue(c) == d && !('a' <= c <= 'f')
  {
    if d < 10 then (d + '0' as int) as char else (d - 10 + 'A' as int) as char
  }

  /** Digits in upper case. */
  function UpperHexText(n: nat): (s: string)
    ensures s != [] && forall i :: 0 <= i < |s| ==> IsHexDigit(s[i])
  {
    if n < 16 then [UpperHexChar(n)] else UpperHexText(n / 16) + [UpperHexChar(n % 16)]
  }

  lemma {:induction false} UpperDigits(n: nat)
    ensures HexDigits(UpperHexText(n)) == Some(n)
  {
    if n >= 16 {
      var text := UpperHexText(n);
      UpperDigits(n / 16);
      assert text[..|text| - 1] == UpperHexText(n / 16);
    }
  }

  /** A text whose prefix is removed reads as its digits. */
  lemma SpelledWith(prefix: string, digits: string, n: nat)
    requires HexDigits(digits) == Some(n) && digits != [] && IsHexDigit(digits[|digits| - 1])
    requires prefix != [] && !IsSpace(prefix[0]) && prefix[0] != '-'
    requires Unprefixed(Unsigned(prefix + digits)) == digits
    ensures HexNumber(prefix + digits) == Some(n)
  {
    hide Unsigned, Unprefixed, HexDigits, IsHexDigit, IsSpace;
    NothingStripped(prefix, digits);
  }

  lemma StrippedAlike(text: string, s: string)
    requires text != [] && s != [] && Stripped(text) == Stripped(s)
    ensures HexNumber(text) == HexNumber(s)
  {
    hide Unsigned, Unprefixed, HexDigits, Stripped;
  }

  lemma SpelledBetweenSpace(a: string, s: string, b: string)
    requires Blank(a) && Blank(b) && s != [] && !IsSpace(s[0]) && !IsSpace(s[|s| - 1])
    ensures HexNumber(a + s + b) == HexNumber(s)
  {
    hide HexNumber, Blank, IsSpace;
    SurroundingSpace(a, s, b);
    StrippedAlike(a + s + b, s);
  }

  /** A number may be written with an upper-case prefix, a plus sign or an underscore after the prefix,
      with upper-case digits, and between white space; an empty text is 0, and white space or a bare
      prefix is no number. */
  lemma OtherSpellings(n: nat, a: string, b: string)
    requires Blank(a) && Blank(b)
    ensures HexNumber("0X" + HexText(n)) == Some(n) && HexNumber("+0x" + HexText(n)) == Some(n)
    ensures HexNumber("0x" + UpperHexText(n)) == Some(n) && HexNumber("0x_" + HexText(n)) == Some(n)
    ensures HexNumber(a + ("0x" + HexText(n)) + b) == Some(n)
    ensures HexNumber("") == Some(0) && HexNumber("0x") == None && HexNumber(" ") == None
  {
    HexDigitsOfText(n);
    UpperDigits(n);
    OtherPrefixes(HexText(n));
    OtherPrefixes(UpperHexText(n));
    NotNumbers();
    DigitIsNoSpace(HexText(n));
    hide Unsigned, Unprefixed, HexDigits, HexText, UpperHexText, IsHexDigit, Blank, HexNumber;
    SpelledWith("0X", HexText(n), n);
    SpelledWith("+0x", HexText(n), n);
    SpelledWith("0x_", HexText(n), n);
    SpelledWith("0x", UpperHexText(n), n);
    SpelledWith("0x", HexText(n), n);
    SpelledBetweenSpace(a, "0x" + HexText(n), b);
  }

  lemma DigitIsNoSpace(digits: string)
    requires digits != [] && IsHexDigit(digits[|digits| - 1])
    ensures var s := "0x" + digits; !IsSpace(s[0]) && !IsSpace(s[|s| - 1])
  {
    var s := "0x" + digits;
    assert s[|s| - 1] == digits[|digits| - 1];
  }

  lemma OtherPrefixes(digits: string)
    requires digits != [] && IsHexDigit(digits[0])
    ensures Unsigned("0X" + digits) == "0X" + digits && Unsigned("+0x" + digits) == "0x" + digits
    ensures Unsigned("0x_" + digits) == "0x_" + digits && Unsigned("0x" + digits) == "0x" + digits
    ensures Unprefixed("0X" + digits) == digits && Unprefixed("0x_" + digits) == digits
    ensures Unprefixed("0x" + digits) == digits
  {
    assert ("+0x" + digits)[1..] == "0x" + digits;
    assert ("0x_" + digits)[3..] == digits && ("0X" + digits)[2..] == digits && ("0x" + digits)[2..] == digits;
  }

  lemma NotNumbers()
    ensures HexNumber("") == Some(0) && HexNumber("0x") == None && HexNumber(" ") == None
  {
    assert " "[1..] == "" && Stripped(" ") == "";
    assert Stripped("0x") == "0x" && Unprefixed("0x") == "";
  }
}

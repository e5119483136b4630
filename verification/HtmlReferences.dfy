/** What is a character reference, and what a numeric one stands for (src/providers/schoolsoft/capture/html.ts). */
module HtmlReferences {
  import opened Basics
  import opened Characters
  import opened HtmlText

  predicate Digits(s: string, hex: bool) {
    s != "" && forall c :: c in s ==> IsDigit(c) || (hex && ('a' <= c <= 'f' || 'A' <= c <= 'F'))
  }

  predicate Letters(s: string) {
    s != "" && forall c :: c in s ==> IsLetter(c)
  }

  /** Between "&" and ";": a name, "#" and a decimal number, or "#x" and a hexadecimal one. */
  predicate IsBody(ref: string) {
    Letters(ref)
    || (ref != "" && ref[0] == '#' && Digits(ref[1..], false))
    || (|ref| > 1 && ref[0] == '#' && (ref[1] == 'x' || ref[1] == 'X') && Digits(ref[2..], true))
  }

  predicate IsReference(s: string, n: nat) {
    3 <= n <= |s| && s[0] == '&' && s[n - 1] == ';' && IsBody(s[1..n - 1])
  }

  lemma {:induction false} SpanIs(s: string, k: nat, p: char -> bool)
    requires k < |s| && !p(s[k]) && forall i :: 0 <= i < k ==> p(s[i])
    ensures Span(s, p) == k
  {
    assert s == s[..k] + s[k..] && s[k..][0] == s[k];
    SpanOf(s[..k], s[k..], p);
  }

  lemma NameLength(s: string, n: nat)
    requires 3 <= n <= |s| && s[0] == '&' && s[n - 1] == ';' && Letters(s[1..n - 1])
    ensures ReferenceLength(s) == n
  {
    hide IsLetter, IsDigit, IsHex;
    var ref := s[1..n - 1];
    assert forall i :: 0 <= i < |ref| ==> ref[i] == s[1..][i] && ref[i] in ref;
    assert ref[0] == s[1];
    Marks();
    SpanIs(s[1..], n - 2, IsLetter);
  }

  lemma DecimalLength(s: string, n: nat)
    requires 4 <= n <= |s| && s[0] == '&' && s[1] == '#' && s[n - 1] == ';' && Digits(s[2..n - 1], false)
    ensures ReferenceLength(s) == n
  {
    hide IsLetter, IsDigit, IsHex;
    var ref := s[2..n - 1];
    assert forall i :: 0 <= i < |ref| ==> ref[i] == s[2..][i] && ref[i] in ref;
    assert ref[0] == s[2];
    Marks();
    SpanIs(s[2..], n - 3, IsDigit);
  }

  lemma HexLength(s: string, n: nat)
    requires 5 <= n <= |s| && s[0] == '&' && s[1] == '#' && (s[2] == 'x' || s[2] == 'X') && s[n - 1] == ';'
    requires Digits(s[3..n - 1], true)
    ensures ReferenceLength(s) == n
  {
    hide IsLetter, IsDigit;
    var ref := s[3..n - 1];
    assert forall i :: 0 <= i < |ref| ==> ref[i] == s[3..][i] && ref[i] in ref;
    Marks();
    SpanIs(s[3..], n - 4, IsHex);
  }

  lemma Marks()
    ensures !IsLetter('#') && !IsDigit('x') && !IsDigit('X') && !IsLetter(';') && !IsDigit(';') && !IsHex(';')
  {
  }

  lemma BodyLength(s: string, n: nat)
    requires IsReference(s, n)
    ensures ReferenceLength(s) == n
  {
    hide ReferenceLength, Digits, Letters;
    var ref := s[1..n - 1];
    assert ref[0] == s[1] && (n > 3 ==> ref[1] == s[2]);
    if Letters(ref) {
      NameLength(s, n);
    } else if Digits(ref[1..], false) && ref[0] == '#' {
      assert ref[1..] == s[2..n - 1];
      NotEmpty(ref[1..], false);
      DecimalLength(s, n);
    } else {
      assert ref[2..] == s[3..n - 1];
      NotEmpty(ref[2..], true);
      HexLength(s, n);
    }
  }

  lemma NotEmpty(s: string, hex: bool)
    requires Digits(s, hex)
    ensures s != ""
  {
  }

  lemma LengthBody(s: string)
    requires ReferenceLength(s) > 0
    ensures IsReference(s, ReferenceLength(s))
  {
    var n := ReferenceLength(s);
    var ref := s[1..n - 1];
    if s[1] != '#' {
      assert ref == s[1..][..Span(s[1..], IsLetter)];
    } else if s[2] == 'x' || s[2] == 'X' {
      assert ref[2..] == s[3..][..Span(s[3..], IsHex)];
    } else {
      assert ref[1..] == s[2..][..Span(s[2..], IsDigit)];
    }
  }

  /** The pattern finds a reference exactly where one stands. */
  lemma ReferenceIs(s: string, n: nat)
    ensures IsReference(s, n) <==> n > 0 && ReferenceLength(s) == n
  {
    if IsReference(s, n) {
      BodyLength(s, n);
    }
    if ReferenceLength(s) > 0 {
      LengthBody(s);
    }
  }

  /** Anything else is decoded as itself. */
  lemma PlainDecodes(s: string)
    requires s != "" && forall n :: 0 <= n <= |s| ==> !IsReference(s, n)
    ensures Decode(s) == [s[0]] + Decode(s[1..])
  {
    hide Reference, IsReference;
    if ReferenceLength(s) > 0 {
      LengthBody(s);
    }
  }

  /** The value of a digit of either case. */
  function Worth(c: char): nat {
    if '0' <= c <= '9' then c as int - '0' as int
    else if 'a' <= c <= 'z' then 10 + c as int - 'a' as int
    else if 'A' <= c <= 'Z' then 10 + c as int - 'A' as int
    else 0
  }

  function Power(base: nat, n: nat): nat {
    if n == 0 then 1 else base * Power(base, n - 1)
  }

  /** Positional value, from the first digit down. */
  function Value(digits: string, base: nat): nat {
    if digits == "" then 0 else Worth(digits[0]) * Power(base, |digits| - 1) + Value(digits[1..], base)
  }

  lemma {:induction false} ValuePushed(digits: string, c: char, base: nat)
    ensures Value(digits + [c], base) == Value(digits, base) * base + Worth(c)
  {
    var s := digits + [c];
    if digits == "" {
      assert s == [c] && Power(base, 0) == 1;
      assert Value(s[1..], base) == 0;
    } else {
      assert s[1..] == digits[1..] + [c];
      ValuePushed(digits[1..], c, base);
      Shifted(Worth(digits[0]), base, |digits| - 1, Value(digits[1..], base));
    }
  }

  lemma Shifted(d: nat, base: nat, n: nat, rest: nat)
    ensures d * Power(base, n + 1) + rest * base == (d * Power(base, n) + rest) * base
  {
  }

  lemma {:induction false} NumberIs(digits: string, base: nat)
    requires forall c :: c in digits ==> IsHex(c)
    ensures Number(digits, base) == Value(digits, base)
  {
    if digits != "" {
      var init, last := digits[..|digits| - 1], digits[|digits| - 1];
      NumberIs(init, base);
      assert last in digits;
      ValuePushed(init, last, base);
      assert init + [last] == digits;
    }
  }

  /** The character of a code point; a lone surrogate stands as U+FFFD. */
  function Character(code: nat): string
    requires 0 < code <= 0x10ffff
  {
    if 0xd800 <= code <= 0xdfff then "\U{FFFD}" else [code as char]
  }

  /** A name of the table stands for what the table says, in exactly that case, wherever it stands. */
  lemma NamedExactly(name: string, rest: string)
    requires Letters(name) && name in NAMED
    ensures Decode("&" + name + ";" + rest) == NAMED[name] + Decode(rest)
  {
    hide Decode;
    assert forall i :: 0 <= i < |name| ==> name[i] in name;
    NamedDecodes(name, rest);
  }

  lemma ReferenceDecodes(whole: string, rest: string)
    requires |whole| >= 3 && ReferenceLength(whole + rest) == |whole|
    ensures Decode(whole + rest) == Reference(whole) + Decode(rest)
  {
    hide ReferenceLength, Reference;
    var s := whole + rest;
    assert s[..|whole|] == whole && s[|whole|..] == rest;
  }

  function NumericText(digits: string, base: nat, whole: string): string {
    var code := Value(digits, base);
    if 0 < code <= 0x10ffff then Character(code) else whole
  }

  lemma CodeIs(digits: string, base: nat, whole: string)
    requires forall c :: c in digits ==> IsHex(c)
    ensures CodePoint(Number(digits, base), whole) == NumericText(digits, base, whole)
  {
    NumberIs(digits, base);
  }

  lemma DecimalDecodes(digits: string, rest: string)
    requires Digits(digits, false)
    ensures var whole := "&#" + digits + ";"; Decode(whole + rest) == NumericText(digits, 10, whole) + Decode(rest)
  {
    hide Decode, ReferenceLength, Number, CodePoint, NumericText;
    var whole := "&#" + digits + ";";
    var s, n := whole + rest, |whole|;
    assert digits[0] in digits;
    assert s[2..n - 1] == digits && s[0] == '&' && s[1] == '#' && s[n - 1] == ';';
    DecimalLength(s, n);
    ReferenceDecodes(whole, rest);
    CodeIs(digits, 10, whole);
    var ref := whole[1..n - 1];
    assert ref == "#" + digits && ref[1..] == digits && ref[1] == digits[0];
  }

  lemma HexDecodes(digits: string, x: char, rest: string)
    requires Digits(digits, true) && (x == 'x' || x == 'X')
    ensures var whole := "&#" + [x] + digits + ";"; Decode(whole + rest) == NumericText(digits, 16, whole) + Decode(rest)
  {
    hide Decode, ReferenceLength, Number, CodePoint, NumericText;
    var whole := "&#" + [x] + digits + ";";
    var s, n := whole + rest, |whole|;
    assert s[3..n - 1] == digits && s[0] == '&' && s[1] == '#' && s[2] == x && s[n - 1] == ';';
    HexLength(s, n);
    ReferenceDecodes(whole, rest);
    CodeIs(digits, 16, whole);
    var ref := whole[1..n - 1];
    assert ref == "#" + [x] + digits && ref[2..] == digits && ref[1] == x;
  }

  /** A decimal or hexadecimal reference stands for the character of its number, wherever it stands, and for itself
      when there is no such character. */
  lemma NumericDecodes(digits: string, hex: bool, x: char, rest: string)
    requires Digits(digits, hex) && (x == 'x' || x == 'X')
    ensures var whole := "&#" + (if hex then [x] else "") + digits + ";";
            var code := Value(digits, if hex then 16 else 10);
            Decode(whole + rest) == (if 0 < code <= 0x10ffff then Character(code) else whole) + Decode(rest)
  {
    hide Decode, Digits, Value;
    if hex {
      HexDecodes(digits, x, rest);
    } else {
      assert "&#" + "" + digits + ";" == "&#" + digits + ";";
      DecimalDecodes(digits, rest);
    }
  }
}

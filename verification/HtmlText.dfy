/** Character classes, searching and entity references of the HTML tokenizer (src/providers/schoolsoft/capture/html.ts). */
module HtmlText {
  import opened Characters

  predicate IsLetter(c: char) {
    'a' <= c <= 'z' || 'A' <= c <= 'Z'
  }

  predicate IsHex(c: char) {
    IsDigit(c) || 'a' <= c <= 'f' || 'A' <= c <= 'F'
  }

  /** `[A-Za-z0-9:-]` */
  predicate IsNameChar(c: char) {
    IsLetter(c) || IsDigit(c) || c == ':' || c == '-'
  }

  /** `[^\s"'>/=]` */
  predicate IsAttrNameChar(c: char) {
    !IsSpace(c) && c != '"' && c != '\'' && c != '>' && c != '/' && c != '='
  }

  /** `[^\s>]` */
  predicate IsBareValueChar(c: char) {
    !IsSpace(c) && c != '>'
  }

  /** `[^>]` */
  predicate IsNotGt(c: char) {
    c != '>'
  }

  predicate All(s: string, p: char -> bool) {
    forall i :: 0 <= i < |s| ==> p(s[i])
  }

  /** Length of the longest prefix in a class: what a greedy `[...]*` consumes. */
  function Span(s: string, p: char -> bool): (n: nat)
    ensures n <= |s| && All(s[..n], p) && (n < |s| ==> !p(s[n]))
  {
    if s == "" || !p(s[0]) then 0
    else
      var n := Span(s[1..], p);
      assert s[..n + 1] == [s[0]] + s[1..][..n];
      n + 1
  }

  lemma {:induction false} SpanOf(a: string, b: string, p: char -> bool)
    requires All(a, p) && (b == "" || !p(b[0]))
    ensures Span(a + b, p) == |a|
  {
    if a == "" {
      assert a + b == b;
    } else {
      assert (a + b)[1..] == a[1..] + b;
      SpanOf(a[1..], b, p);
    }
  }

  function LowerChar(c: char): char {
    if 'A' <= c <= 'Z' then (c as int + 32) as char else c
  }

  function Lower(s: string): (r: string)
    ensures |r| == |s| && forall i :: 0 <= i < |s| ==> r[i] == LowerChar(s[i])
  {
    seq(|s|, i requires 0 <= i < |s| => LowerChar(s[i]))
  }

  lemma LowerTwice(s: string)
    ensures Lower(Lower(s)) == Lower(s)
  {
  }

  /** `indexOf(pat)`: the first occurrence, -1 when there is none. */
  function Find(s: string, pat: string): (r: int)
    requires pat != ""
    ensures -1 <= r <= |s| - |pat| || r == -1
    ensures r >= 0 ==> pat <= s[r..]
  {
    if |s| < |pat| then -1
    else if pat <= s then 0
    else
      var r := Find(s[1..], pat);
      if r < 0 then -1 else assert s[r + 1..] == s[1..][r..]; r + 1
  }

  /** What lies before the first occurrence contains none; and text containing none, followed by a pattern
      that cannot overlap itself, has its first occurrence exactly there. */
  lemma {:induction false} FindBefore(s: string, pat: string)
    requires pat != "" && Find(s, pat) >= 0
    ensures Find(s[..Find(s, pat)], pat) < 0
  {
    var r := Find(s, pat);
    if r > 0 {
      FindBefore(s[1..], pat);
      assert s[..r][1..] == s[1..][..r - 1];
      assert r >= |pat| ==> s[..r][..|pat|] == s[..|pat|];
    }
  }

  lemma {:induction false} FindAfter(t: string, pat: string, rest: string)
    requires pat != "" && Find(t, pat) < 0
    requires forall i :: 0 <= i < |pat| - 1 ==> pat[i] != pat[|pat| - 1]
    ensures Find(t + pat + rest, pat) == |t|
  {
    var s := t + pat + rest;
    if t == "" {
      assert s[..|pat|] == pat;
    } else {
      assert s[1..] == t[1..] + pat + rest;
      var k := |pat| - 1 - |t|;
      assert k < 0 ==> t[..|pat|] == s[..|pat|];
      assert k >= 0 ==> s[|pat| - 1] == pat[k];
      assert !(pat <= s);
      FindAfter(t[1..], pat, rest);
    }
  }

  /** The first position whose suffix satisfies `p`, -1 when there is none: an unanchored search. */
  function FindFirst(s: string, p: string -> bool): (r: int)
    ensures -1 <= r < |s| || r == -1
    ensures r >= 0 ==> p(s[r..])
  {
    if s == "" then -1
    else if p(s) then assert s[0..] == s; 0
    else
      var r := FindFirst(s[1..], p);
      if r < 0 then -1 else assert s[r + 1..] == s[1..][r..]; r + 1
  }

  /** `FindFirst` is exactly that: nothing before its answer satisfies `p`. */
  lemma {:induction false} FirstIs(s: string, p: string -> bool, r: int)
    requires 0 <= r <= |s| && forall i :: 0 <= i < r ==> !p(s[i..])
    ensures FindFirst(s, p) == if r < |s| && p(s[r..]) then r else if r == |s| then -1 else FindFirst(s, p)
    decreases r
  {
    assert s[0..] == s;
    if r > 0 {
      forall i | 0 <= i < r - 1 ensures !p(s[1..][i..]) {
        assert s[1..][i..] == s[i + 1..];
      }
      FirstIs(s[1..], p, r - 1);
      assert s[1..][r - 1..] == s[r..];
    }
  }

  lemma {:induction false} NoneBeforeFirst(s: string, p: string -> bool, i: int)
    requires 0 <= i < if FindFirst(s, p) < 0 then |s| else FindFirst(s, p)
    ensures !p(s[i..])
    decreases i
  {
    assert s[0..] == s;
    if i > 0 {
      NoneBeforeFirst(s[1..], p, i - 1);
      assert s[1..][i - 1..] == s[i..];
    }
  }

  // ---------- Entity references ----------

  const NAMED: map<string, string> := map[
    "amp" := "&", "lt" := "<", "gt" := ">", "quot" := "\"", "apos" := "'", "nbsp" := " ",
    "aring" := "\U{00E5}", "Aring" := "\U{00C5}", "auml" := "\U{00E4}", "Auml" := "\U{00C4}",
    "ouml" := "\U{00F6}", "Ouml" := "\U{00D6}", "eacute" := "\U{00E9}", "Eacute" := "\U{00C9}",
    "uuml" := "\U{00FC}", "Uuml" := "\U{00DC}", "ndash" := "\U{2013}", "mdash" := "\U{2014}", "hellip" := "\U{2026}"]

  /** Members every JavaScript object inherits: the lookup `NAMED[ref]` finds these functions too. */
  const INHERITED := {"toString", "valueOf", "hasOwnProperty", "isPrototypeOf", "propertyIsEnumerable", "toLocaleString"}

  function NativeText(name: string): string {
    "function " + name + "() { [native code] }"
  }

  function NamedReference(name: string, whole: string): string {
    if name in NAMED then NAMED[name]
    else if name == "constructor" then NativeText("Object")
    else if name in INHERITED then NativeText(name)
    else whole
  }

  function DigitValue(c: char): nat {
    if IsDigit(c) then c as int - '0' as int
    else if 'a' <= c <= 'f' then c as int - 'a' as int + 10
    else if 'A' <= c <= 'F' then c as int - 'A' as int + 10
    else 0
  }

  function Number(digits: string, base: nat): nat {
    if digits == "" then 0
    else Number(digits[..|digits| - 1], base) * base + DigitValue(digits[|digits| - 1])
  }

  /** A lone surrogate has no character of its own here and stands as U+FFFD. */
  function CodePoint(code: nat, whole: string): string {
    if code == 0 || code > 0x10ffff then whole
    else if 0xd800 <= code < 0xe000 then "\U{FFFD}"
    else [code as char]
  }

  /** Length of the reference the pattern `&(#x[0-9a-f]+|#\d+|[a-z]+);` matches at the start, 0 for none. */
  function ReferenceLength(s: string): (n: nat)
    ensures n <= |s|
    ensures n > 0 ==> n >= 3
  {
    if |s| < 2 || s[0] != '&' then 0
    else
      var start := if s[1] != '#' then 1 else if |s| > 2 && (s[2] == 'x' || s[2] == 'X') then 3 else 2;
      var n := Span(s[start..], if start == 1 then IsLetter else if start == 2 then IsDigit else IsHex);
      if n > 0 && start + n < |s| && s[start + n] == ';' then start + n + 1 else 0
  }

  function Reference(whole: string): string
    requires |whole| >= 3
  {
    var ref := whole[1..|whole| - 1];
    if ref[0] != '#' then NamedReference(ref, whole)
    else if |ref| > 1 && (ref[1] == 'x' || ref[1] == 'X') then CodePoint(Number(ref[2..], 16), whole)
    else CodePoint(Number(ref[1..], 10), whole)
  }

  function Decode(s: string): string {
    if s == "" then ""
    else
      var n := ReferenceLength(s);
      if n > 0 then Reference(s[..n]) + Decode(s[n..]) else [s[0]] + Decode(s[1..])
  }

  /** `replace(/c/g, with)` */
  function ReplaceAll(s: string, c: char, with: string): string {
    if s == "" then "" else (if s[0] == c then with else [s[0]]) + ReplaceAll(s[1..], c, with)
  }

  function EscapeAttr(s: string): string {
    ReplaceAll(ReplaceAll(s, '&', "&amp;"), '"', "&quot;")
  }

  lemma {:induction false} ReplaceAllConcat(a: string, b: string, c: char, with: string)
    ensures ReplaceAll(a + b, c, with) == ReplaceAll(a, c, with) + ReplaceAll(b, c, with)
  {
    if a == "" {
      assert a + b == b;
    } else {
      assert (a + b)[1..] == a[1..] + b;
      ReplaceAllConcat(a[1..], b, c, with);
    }
  }

  /** Escaping goes character by character. */
  function EscapedChar(c: char): string {
    if c == '&' then "&amp;" else if c == '"' then "&quot;" else [c]
  }

  lemma EscapeAttrCons(s: string)
    requires s != ""
    ensures EscapeAttr(s) == EscapedChar(s[0]) + EscapeAttr(s[1..])
  {
    var first := if s[0] == '&' then "&amp;" else [s[0]];
    ReplaceAllConcat(first, ReplaceAll(s[1..], '&', "&amp;"), '"', "&quot;");
    if s[0] == '&' {
      AmpHasNoQuote();
    } else {
      assert [s[0]][1..] == "";
    }
  }

  lemma AmpHasNoQuote()
    ensures ReplaceAll("&amp;", '"', "&quot;") == "&amp;"
  {
    assert "&amp;"[1..] == "amp;" && "amp;"[1..] == "mp;" && "mp;"[1..] == "p;" && "p;"[1..] == ";" && ";"[1..] == "";
    assert ReplaceAll(";", '"', "&quot;") == ";";
    assert ReplaceAll("p;", '"', "&quot;") == "p;";
    assert ReplaceAll("mp;", '"', "&quot;") == "mp;";
    assert ReplaceAll("amp;", '"', "&quot;") == "amp;";
  }

  /** A reference by name, wherever it stands. */
  lemma NamedDecodes(name: string, rest: string)
    requires name != "" && All(name, IsLetter)
    ensures Decode("&" + name + ";" + rest) == NamedReference(name, "&" + name + ";") + Decode(rest)
  {
    hide NamedReference;
    var s := "&" + name + ";" + rest;
    var n := |name| + 2;
    assert Span(s[1..], IsLetter) == |name| by {
      assert s[1..] == name + (";" + rest);
      SpanOf(name, ";" + rest, IsLetter);
    }
    assert s[1] == name[0];
    assert s[1 + |name|] == ';';
    assert ReferenceLength(s) == n;
    assert s[..n] == "&" + name + ";" && s[..n][1..n - 1] == name && s[n..] == rest;
  }

  lemma PlainCharDecodes(c: char, rest: string)
    requires c != '&'
    ensures Decode([c] + rest) == [c] + Decode(rest)
  {
    assert ([c] + rest)[1..] == rest;
  }

  lemma MarkupNames()
    ensures NamedReference("amp", "&amp;") == "&" && NamedReference("quot", "&quot;") == "\""
  {
  }

  lemma EscapedCharDecodes(c: char, rest: string)
    ensures Decode(EscapedChar(c) + rest) == [c] + Decode(rest)
  {
    hide Decode, NamedReference;
    MarkupNames();
    if c == '&' {
      NamedDecodes("amp", rest);
      assert "&" + "amp" + ";" == "&amp;";
    } else if c == '"' {
      NamedDecodes("quot", rest);
      assert "&" + "quot" + ";" == "&quot;";
    } else {
      PlainCharDecodes(c, rest);
    }
  }

  /** Escaping is undone by decoding, for every string. */
  lemma {:induction false} DecodeEscape(v: string)
    ensures Decode(EscapeAttr(v)) == v
  {
    if v != "" {
      EscapeAttrCons(v);
      EscapedCharDecodes(v[0], EscapeAttr(v[1..]));
      DecodeEscape(v[1..]);
    }
  }

  lemma {:induction false} EscapedHasNoQuote(v: string)
    ensures Find(EscapeAttr(v), "\"") < 0
  {
    if v != "" {
      EscapeAttrCons(v);
      EscapedHasNoQuote(v[1..]);
      NoQuoteConcat(EscapedChar(v[0]), EscapeAttr(v[1..]));
    }
  }

  lemma {:induction false} NoQuoteConcat(a: string, b: string)
    requires All(a, c => c != '"') && Find(b, "\"") < 0
    ensures Find(a + b, "\"") < 0
  {
    if a == "" {
      assert a + b == b;
    } else {
      assert (a + b)[1..] == a[1..] + b;
      NoQuoteConcat(a[1..], b);
      assert (a + b)[0] == a[0];
    }
  }

  lemma NamesAreShort(name: string)
    requires name in NAMED
    ensures |name| <= 6
  {
  }

  /** An unknown reference stays as written exactly when it does not name a member that every object inherits. */
  lemma UnknownStaysExactly(name: string, rest: string)
    requires name != "" && All(name, IsLetter) && name !in NAMED
    ensures Decode("&" + name + ";" + rest) == "&" + name + ";" + Decode(rest)
            <==> name != "constructor" && name !in INHERITED
  {
    hide Decode;
    NamedDecodes(name, rest);
    var whole := "&" + name + ";";
    assert (whole + Decode(rest))[0] == '&';
    assert NamedReference(name, whole) != whole ==> (NamedReference(name, whole) + Decode(rest))[0] == 'f';
  }

  /** One that does. */
  lemma InheritedNamesDecode(rest: string)
    ensures Decode("&valueOf;" + rest) == NativeText("valueOf") + Decode(rest)
  {
    var name := "valueOf";
    NamedDecodes(name, rest);
    assert "&" + name + ";" == "&valueOf;";
    assert name !in NAMED by {
      if name in NAMED {
        NamesAreShort(name);
      }
    }
    assert |"constructor"| != |name|;
  }
}

/**
 * What each piece of a page means (src/providers/schoolsoft/capture/html.ts): tags in every way they can be written,
 * raw bodies, comments, declarations, close tags, text and references, each with what follows it.
 */
module HtmlReading {
  import opened Basics
  import opened Characters
  import opened HtmlText
  import opened Html
  import opened HtmlScanner

  // ---------- How an attribute can be written ----------

  /** Between two quotes of a kind, bare, or with a quote that the page does not close. */
  datatype Value = Quoted(q: char, text: string) | Bare(text: string) | Unclosed(q: char, text: string)

  /** `before` and `after` stand around "="; `gap` is whatever stands in front of the name. */
  datatype Written = Written(gap: string, name: string, given: Option<Given>)
  datatype Given = Given(before: string, after: string, value: Value)

  predicate IsQuote(c: char) {
    c == '"' || c == '\''
  }

  /** Skipped between attributes: space, and quotes, slashes and equal signs that belong to nothing. */
  predicate IsSkipped(c: char) {
    IsSpace(c) || IsQuote(c) || c == '/' || c == '='
  }

  function ValueWritten(v: Value): string {
    match v
    case Quoted(q, text) => [q] + text + [q]
    case Bare(text) => text
    case Unclosed(q, text) => [q] + text
  }

  function GivenWritten(g: Option<Given>): string {
    match g
    case None => ""
    case Some(g) => g.before + "=" + g.after + ValueWritten(g.value)
  }

  /** The attributes, then `tail`. */
  function AllWritten(ws: seq<Written>, tail: string): string {
    if ws == [] then tail else ws[0].gap + ws[0].name + GivenWritten(ws[0].given) + AllWritten(ws[1..], tail)
  }

  predicate ValueFits(v: Value, follows: string) {
    match v
    case Quoted(q, text) => IsQuote(q) && q !in text
    case Bare(text) =>
      text != "" && !IsQuote(text[0]) && (forall c :: c in text ==> !IsSpace(c) && c != '>')
      && (follows == "" || IsSpace(follows[0]) || follows[0] == '>')
    case Unclosed(q, text) => IsQuote(q) && q !in text && follows == ""
  }

  /** The first character that is no space, if any, is no "=". */
  predicate NoEquals(s: string) {
    s == "" || (s[0] != '=' && (IsSpace(s[0]) ==> NoEquals(s[1..])))
  }

  /** The attribute ends where it should, given what follows it. */
  predicate Fits(w: Written, follows: string) {
    && (forall c :: c in w.gap ==> IsSkipped(c))
    && w.name != "" && (forall c :: c in w.name ==> !IsSkipped(c) && c != '>')
    && (match w.given
        case None => (follows == "" || IsSkipped(follows[0]) || follows[0] == '>') && NoEquals(follows)
        case Some(g) =>
          (forall c :: c in g.before + g.after ==> IsSpace(c)) && ValueFits(g.value, follows))
  }

  predicate AllFit(ws: seq<Written>, tail: string) {
    ws == [] || (Fits(ws[0], AllWritten(ws[1..], tail)) && AllFit(ws[1..], tail))
  }

  function MeaningOf(w: Written): Attr {
    Attr(Lower(w.name), if w.given.None? then None else Some(Decode(w.given.value.value.text)))
  }

  function Meaning(ws: seq<Written>): seq<Attr> {
    if ws == [] then [] else [MeaningOf(ws[0])] + Meaning(ws[1..])
  }

  /** How a tag can end: ">", "/>", or with the page. */
  datatype End = Closed | SelfClosed | Unfinished

  function EndWritten(e: End): string {
    match e
    case Closed => ">"
    case SelfClosed => "/>"
    case Unfinished => ""
  }

  /** `gap` stands in front of the end. */
  predicate EndFits(gap: string, e: End, rest: string) {
    && (forall c :: c in gap ==> IsSkipped(c))
    && (e.Closed? ==> gap == "" || gap[|gap| - 1] != '/')
    && (e.Unfinished? ==> rest == "")
  }

  // ---------- Reading them ----------

  lemma SameTurn(s: string, t: string, before: seq<Attr>)
    requires s[Span(s, IsSpace)..] == t[Span(t, IsSpace)..]
    ensures ReadAttrs(s, before) == ReadAttrs(t, before)
  {
    hide IsSpace, IsAttrNameChar, Decode, AttrValue, Lower, Span;
  }

  lemma SpanFirst(c: char, z: string)
    ensures var s := [c] + z; s[Span(s, IsSpace)..] == if IsSpace(c) then z[Span(z, IsSpace)..] else s
    ensures Span([c] + z, IsAttrNameChar) == 0 <==> !IsAttrNameChar(c)
  {
    hide IsSpace, IsAttrNameChar;
    var s := [c] + z;
    assert s[1..] == z && s[0] == c && s[0..] == s;
  }

  lemma SkipOne(c: char, z: string, before: seq<Attr>)
    requires IsSkipped(c) && !(c == '/' && z != "" && z[0] == '>')
    ensures ReadAttrs([c] + z, before) == ReadAttrs(z, before)
  {
    hide ReadAttrs, Span;
    var s := [c] + z;
    SpanFirst(c, z);
    if IsSpace(c) {
      SameTurn(s, z, before);
    } else {
      assert s[1..] == z && (|s| > 1 ==> s[1] == z[0]);
      OneTurn(s, s, before);
    }
  }

  lemma {:induction false} SkipGap(gap: string, z: string, before: seq<Attr>)
    requires forall c :: c in gap ==> IsSkipped(c)
    requires gap == "" || gap[|gap| - 1] != '/' || z == "" || z[0] != '>'
    ensures ReadAttrs(gap + z, before) == ReadAttrs(z, before)
  {
    if gap == "" {
      assert gap + z == z;
    } else {
      assert gap + z == [gap[0]] + (gap[1..] + z);
      assert gap[0] in gap && (gap[1..] != "" ==> (gap[1..] + z)[0] == gap[1] && gap[1] in gap);
      SkipOne(gap[0], gap[1..] + z, before);
      SkipGap(gap[1..], z, before);
    }
  }

  lemma {:induction false} NoEqualsIs(z: string)
    requires NoEquals(z)
    ensures Span(z, IsSpace) >= |z| || z[Span(z, IsSpace)] != '='
  {
    if z != "" && IsSpace(z[0]) {
      NoEqualsIs(z[1..]);
    }
  }

  lemma NameRead(name: string, z: string)
    requires name != "" && (forall c :: c in name ==> !IsSkipped(c) && c != '>')
    requires z == "" || IsSkipped(z[0]) || z[0] == '>'
    ensures var s := name + z;
            Span(s, IsSpace) == 0 && Span(s, IsAttrNameChar) == |name| && s[..|name|] == name && s[|name|..] == z
            && s[0] == name[0] && !IsSkipped(s[0]) && s[0] != '>' && !("/>" <= s)
  {
    assert forall i :: 0 <= i < |name| ==> name[i] in name;
    SpanOf(name, z, IsAttrNameChar);
  }

  lemma BareRead(name: string, z: string, before: seq<Attr>)
    requires name != "" && (forall c :: c in name ==> !IsSkipped(c) && c != '>')
    requires (z == "" || IsSkipped(z[0]) || z[0] == '>') && NoEquals(z)
    ensures ReadAttrs(name + z, before) == ReadAttrs(z, before + [Attr(Lower(name), None)])
  {
    hide IsSpace, IsAttrNameChar, ReadAttrs, Span, NoEquals;
    NameRead(name, z);
    NoEqualsIs(z);
    assert (name + z)[0..] == name + z;
    OneAttr(name + z, name + z, z, before);
  }

  lemma QuoteFind(q: char, text: string, z: string)
    requires q !in text
    ensures Find(text + [q] + z, [q]) == |text|
    ensures Find(text, [q]) < 0
  {
    NoneFound(q, text);
    FindAfter(text, [q], z);
  }

  lemma {:induction false} NoneFound(q: char, text: string)
    requires q !in text
    ensures Find(text, [q]) < 0
  {
    if text != "" {
      assert text[0] in text;
      NoneFound(q, text[1..]);
    }
  }

  lemma QuotedRead(q: char, text: string, z: string)
    requires IsQuote(q) && q !in text
    ensures AttrValue([q] + text + [q] + z) == (text, z)
  {
    hide Find;
    var s := [q] + text + [q] + z;
    QuoteFind(q, text, z);
    assert s[1..] == text + [q] + z && s[0] == q;
    assert (text + [q] + z)[..|text|] == text && (text + [q] + z)[|text| + 1..] == z;
  }

  lemma UnclosedRead(q: char, text: string)
    requires IsQuote(q) && q !in text
    ensures AttrValue([q] + text) == (text, "")
  {
    hide Find;
    var s := [q] + text;
    NoneFound(q, text);
    assert s[1..] == text && s[0] == q;
  }

  lemma UnquotedRead(text: string, z: string)
    requires text != "" && !IsQuote(text[0]) && forall c :: c in text ==> !IsSpace(c) && c != '>'
    requires z == "" || IsSpace(z[0]) || z[0] == '>'
    ensures AttrValue(text + z) == (text, z)
  {
    hide IsSpace;
    var s := text + z;
    assert forall i :: 0 <= i < |text| ==> text[i] in text;
    SpanOf(text, z, IsBareValueChar);
    assert s[0] == text[0] && s[..|text|] == text && s[|text|..] == z;
  }

  lemma ValueRead(v: Value, z: string)
    requires ValueFits(v, z)
    ensures AttrValue(ValueWritten(v) + z) == (v.text, z)
    ensures ValueWritten(v) != "" && !IsSpace(ValueWritten(v)[0])
  {
    hide AttrValue;
    match v
    case Quoted(q, text) => QuotedRead(q, text, z);
    case Bare(text) =>
      assert text[0] in text;
      UnquotedRead(text, z);
    case Unclosed(q, text) =>
      UnclosedRead(q, text);
      assert ValueWritten(v) + z == [q] + text;
  }

  lemma ValuedRead(name: string, g: Given, z: string, before: seq<Attr>)
    requires name != "" && (forall c :: c in name ==> !IsSkipped(c) && c != '>')
    requires (forall c :: c in g.before + g.after ==> IsSpace(c)) && ValueFits(g.value, z)
    ensures ReadAttrs(name + GivenWritten(Some(g)) + z, before)
         == ReadAttrs(z, before + [Attr(Lower(name), Some(Decode(g.value.text)))])
  {
    hide IsSpace, IsAttrNameChar, Decode, AttrValue, IsSkipped, ReadAttrs, Span, ValueFits, ValueWritten, Lower;
    var w := ValueWritten(g.value) + z;
    ValueRead(g.value, z);
    assert w[0] == ValueWritten(g.value)[0];
    AroundEquals(g, w);
    assert name + GivenWritten(Some(g)) + z == name + (g.before + ("=" + (g.after + w)));
    EqualsRead(name, g.before, g.after, w, before);
  }

  lemma EqualsRead(name: string, b: string, a: string, w: string, before: seq<Attr>)
    requires name != "" && (forall c :: c in name ==> !IsSkipped(c) && c != '>')
    requires (forall c :: c in b ==> IsSpace(c)) && (forall c :: c in a ==> IsSpace(c)) && w != "" && !IsSpace(w[0])
    ensures ReadAttrs(name + (b + ("=" + (a + w))), before)
         == ReadAttrs(AttrValue(w).1, before + [Attr(Lower(name), Some(Decode(AttrValue(w).0)))])
  {
    hide IsSpace, IsAttrNameChar, Decode, AttrValue, IsSkipped, ReadAttrs, Span, Lower;
    var v := b + ("=" + (a + w));
    EqualsFollow(b, a + w);
    NameRead(name, v);
    SpacesBefore(a, w);
    assert (name + v)[0..] == name + v;
    OneAttr(name + v, name + v, v, before);
  }

  lemma AroundEquals(g: Given, w: string)
    requires forall c :: c in g.before + g.after ==> IsSpace(c)
    ensures (forall c :: c in g.before ==> IsSpace(c)) && (forall c :: c in g.after ==> IsSpace(c))
  {
    hide IsSpace;
  }

  lemma EqualsFollow(before: string, w: string)
    requires forall c :: c in before ==> IsSpace(c)
    ensures var v := before + ("=" + w);
            Span(v, IsSpace) == |before| && v[|before|] == '=' && v[|before| + 1..] == w && (IsSkipped(v[0]))
  {
    assert forall i :: 0 <= i < |before| ==> before[i] in before;
    SpanOf(before, "=" + w, IsSpace);
  }

  lemma SpacesBefore(after: string, w: string)
    requires (forall c :: c in after ==> IsSpace(c)) && w != "" && !IsSpace(w[0])
    ensures (after + w)[Span(after + w, IsSpace)..] == w
  {
    hide IsSpace;
    assert forall i :: 0 <= i < |after| ==> after[i] in after;
    SpanOf(after, w, IsSpace);
  }

  /** Attributes in any of these forms are read as what they mean, one after the other. */
  lemma {:induction false} AttrsRead(ws: seq<Written>, tail: string, before: seq<Attr>)
    requires AllFit(ws, tail)
    ensures ReadAttrs(AllWritten(ws, tail), before) == ReadAttrs(tail, before + Meaning(ws))
  {
    hide ReadAttrs, Fits, MeaningOf, GivenWritten;
    if ws == [] {
      assert before + Meaning(ws) == before;
    } else {
      OneRead(ws[0], AllWritten(ws[1..], tail), before);
      AttrsRead(ws[1..], tail, before + [MeaningOf(ws[0])]);
      assert before + [MeaningOf(ws[0])] + Meaning(ws[1..]) == before + Meaning(ws);
    }
  }

  lemma GapRead(w: Written, z: string, before: seq<Attr>)
    requires Fits(w, z)
    ensures ReadAttrs(w.gap + (w.name + GivenWritten(w.given) + z), before) == ReadAttrs(w.name + GivenWritten(w.given) + z, before)
  {
    hide ReadAttrs, ValueFits, NoEquals, GivenWritten;
    var s := w.name + GivenWritten(w.given) + z;
    assert s[0] == w.name[0] && w.name[0] in w.name;
    SkipGap(w.gap, s, before);
  }

  lemma OneRead(w: Written, z: string, before: seq<Attr>)
    requires Fits(w, z)
    ensures ReadAttrs(w.gap + w.name + GivenWritten(w.given) + z, before) == ReadAttrs(z, before + [MeaningOf(w)])
  {
    hide ReadAttrs, ValueFits, NoEquals, IsSkipped, GivenWritten, Lower, Decode;
    var s := w.name + GivenWritten(w.given) + z;
    assert w.gap + w.name + GivenWritten(w.given) + z == w.gap + s;
    GapRead(w, z, before);
    match w.given
    case None =>
      NothingGiven();
      assert s == w.name + z;
      BareRead(w.name, z, before);
    case Some(g) => ValuedRead(w.name, g, z, before);
  }

  lemma NothingGiven()
    ensures GivenWritten(None) == ""
  {
  }

  lemma ClosedRead(rest: string, before: seq<Attr>)
    ensures ReadAttrs(['>'] + rest, before) == TagEnd(before, false, rest)
  {
    hide ReadAttrs, Span, IsSpace;
    var z := ['>'] + rest;
    NotSpace();
    SpanFirst('>', rest);
    assert z[1..] == rest;
    OneTurn(z, z, before);
  }

  lemma SelfClosedRead(rest: string, before: seq<Attr>)
    ensures ReadAttrs(['/'] + (">" + rest), before) == TagEnd(before, true, rest)
  {
    hide ReadAttrs, Span, IsSpace;
    var z := ['/'] + (">" + rest);
    NotSpace();
    SpanFirst('/', ">" + rest);
    assert z[..2] == "/>" && z[2..] == rest;
    OneTurn(z, z, before);
  }

  lemma NotSpace()
    ensures !IsSpace('>') && !IsSpace('/')
  {
  }

  lemma EndRead(gap: string, e: End, rest: string, before: seq<Attr>)
    requires EndFits(gap, e, rest)
    ensures ReadAttrs(gap + EndWritten(e) + rest, before) == TagEnd(before, e.SelfClosed?, rest)
  {
    hide ReadAttrs, Span, IsSkipped;
    var z := EndWritten(e) + rest;
    assert gap + EndWritten(e) + rest == gap + z;
    SkipGap(gap, z, before);
    match e
    case Closed =>
      assert z == ['>'] + rest;
      ClosedRead(rest, before);
    case SelfClosed =>
      assert z == ['/'] + (">" + rest);
      SelfClosedRead(rest, before);
    case Unfinished => OneTurn(z, z[Span(z, IsSpace)..], before);
  }

  // ---------- Tags ----------

  predicate TagName(name: string) {
    name != "" && IsLetter(name[0]) && forall c :: c in name ==> IsLetter(c) || IsDigit(c) || c == ':' || c == '-'
  }

  /** The tag's name ends where its attributes begin, and each of them fits what follows it. */
  predicate TagFits(name: string, ws: seq<Written>, gap: string, e: End, rest: string) {
    var tail := gap + EndWritten(e) + rest;
    TagName(name) && AllFit(ws, tail) && EndFits(gap, e, rest) && (AllWritten(ws, tail) == "" || !IsNameChar(AllWritten(ws, tail)[0]))
  }

  lemma OpenStarts(name: string, after: string)
    requires TagName(name) && (after == "" || !IsNameChar(after[0]))
    ensures var s := "<" + name + after;
            StartsMarkup(s) && !Bang(s[1..]) && s[1] != '!' && s[1] != '?' && s[1] != '/'
            && s[1..] == name + after && Span(s[1..], IsNameChar) == |name|
            && s[1..][..|name|] == name && s[1..][|name|..] == after
  {
    var s := "<" + name + after;
    assert s[1..] == name + after && s[1] == name[0];
    assert forall i :: 0 <= i < |name| ==> name[i] in name;
    SpanOf(name, after, IsNameChar);
  }

  lemma OpenRead(name: string, ws: seq<Written>, gap: string, e: End, rest: string)
    requires TagFits(name, ws, gap, e, rest)
    ensures var s := "<" + name + AllWritten(ws, gap + EndWritten(e) + rest);
            StartsMarkup(s) && Markup(s) == WithBody(OpenTag(Lower(name), Meaning(ws), e.SelfClosed?), rest)
  {
    hide StartsMarkup, IsNameChar, ReadAttrs, AllFit, EndFits, WithBody, Lower, Span, AllWritten, Meaning, TagName, CommentMarkup;
    var tail := gap + EndWritten(e) + rest;
    OpenStarts(name, AllWritten(ws, tail));
    AttrsRead(ws, tail, []);
    EndRead(gap, e, rest, [] + Meaning(ws));
    assert [] + Meaning(ws) == Meaning(ws);
  }

  /** A tag, written in any of these ways, is read as its name and what its attributes mean; what follows is read on
      its own. */
  lemma TagReads(name: string, ws: seq<Written>, gap: string, e: End, rest: string, before: string)
    requires TagFits(name, ws, gap, e, rest)
    requires Lower(name) !in RAW_ELEMENTS || e.SelfClosed?
    ensures TokensFrom("<" + name + AllWritten(ws, gap + EndWritten(e) + rest), before)
         == Flushed(before) + [OpenTag(Lower(name), Meaning(ws), e.SelfClosed?)] + Tokens(rest)
  {
    hide StartsMarkup, TagFits, Lower, AllWritten, Meaning, Markup, TokensFrom;
    var s := "<" + name + AllWritten(ws, gap + EndWritten(e) + rest);
    OpenRead(name, ws, gap, e, rest);
    MarkupStep(s, before);
  }

  predicate SameButCase(a: string, b: string) {
    |a| == |b| && forall i :: 0 <= i < |a| ==> a[i] == b[i] || ('A' <= a[i] <= 'Z' && b[i] as int == a[i] as int + 32)
  }

  /** `</name`, in any case, `k` spaces, then ">". */
  predicate ClosesAfter(s: string, name: string, k: nat) {
    |s| > 2 + |name| + k && s[..2] == "</" && SameButCase(s[2..2 + |name|], name)
    && (forall c :: c in s[2 + |name|..][..k] ==> IsSpace(c)) && s[2 + |name|..][k] == '>'
  }

  ghost predicate Closes(s: string, name: string) {
    exists k: nat :: ClosesAfter(s, name, k)
  }

  predicate LowerCase(name: string) {
    forall c :: c in name ==> !('A' <= c <= 'Z')
  }

  lemma CaseIs(a: string, b: string)
    requires LowerCase(b)
    ensures Lower(a) == b <==> SameButCase(a, b)
  {
    assert forall i :: 0 <= i < |b| ==> b[i] in b;
    if SameButCase(a, b) {
      assert forall i :: 0 <= i < |a| ==> Lower(a)[i] == b[i];
    }
  }

  lemma SpacesThenEnd(t: string, k: nat)
    requires k < |t| && (forall c :: c in t[..k] ==> IsSpace(c)) && t[k] == '>'
    ensures Span(t, IsSpace) == k
  {
    assert t == t[..k] + t[k..] && t[k..][0] == '>';
    assert forall i :: 0 <= i < k ==> t[..k][i] in t[..k];
    SpanOf(t[..k], t[k..], IsSpace);
  }

  lemma CloserIs(s: string, name: string)
    requires LowerCase(name)
    ensures CloserAt(s, name) <==> Closes(s, name)
  {
    hide IsSpace, Lower, SameButCase, LowerCase;
    var n := 2 + |name|;
    if |s| > n {
      CaseIs(s[2..n], name);
      var t := s[n..];
      var k := Span(t, IsSpace);
      if CloserAt(s, name) {
        assert forall i :: 0 <= i < k ==> IsSpace(t[..k][i]);
        assert ClosesAfter(s, name, k);
      }
      forall m: nat | ClosesAfter(s, name, m) ensures CloserAt(s, name) {
        SpacesThenEnd(t, m);
      }
    }
  }

  lemma LowerIsLower(name: string)
    ensures LowerCase(Lower(name))
  {
  }

  /** The body of a raw element runs up to the first place that closes it, or to the end of the page, whatever it
      contains. */
  lemma RawReads(name: string, ws: seq<Written>, gap: string, e: End, rest: string, stop: nat, before: string)
    requires TagFits(name, ws, gap, e, rest)
    requires Lower(name) in {"script", "style", "textarea", "title"} && !e.SelfClosed?
    requires stop <= |rest| && (forall i :: 0 <= i < stop ==> !Closes(rest[i..], Lower(name)))
    requires stop == |rest| || Closes(rest[stop..], Lower(name))
    ensures TokensFrom("<" + name + AllWritten(ws, gap + EndWritten(e) + rest), before)
         == Flushed(before) + ([OpenTag(Lower(name), Meaning(ws), false)] + (if stop > 0 then [Raw(Lower(name), rest[..stop])] else []))
            + Tokens(rest[stop..])
  {
    hide StartsMarkup, TagFits, Lower, AllWritten, Meaning, Markup, TokensFrom, Closes, WithBody;
    var s := "<" + name + AllWritten(ws, gap + EndWritten(e) + rest);
    OpenRead(name, ws, gap, e, rest);
    MarkupStep(s, before);
    BodyRead(OpenTag(Lower(name), Meaning(ws), false), rest, stop, name);
  }

  lemma BodyRead(tag: Token, rest: string, stop: nat, name: string)
    requires tag.OpenTag? && !tag.selfClosing && tag.name == Lower(name) && tag.name in {"script", "style", "textarea", "title"}
    requires stop <= |rest| && (forall i :: 0 <= i < stop ==> !Closes(rest[i..], tag.name))
    requires stop == |rest| || Closes(rest[stop..], tag.name)
    ensures WithBody(tag, rest) == ([tag] + (if stop > 0 then [Raw(tag.name, rest[..stop])] else []), rest[stop..])
  {
    hide Closes, CloserAt, LowerCase, FindCloser, Lower;
    LowerIsLower(name);
    FirstCloser(rest, tag.name, stop);
    assert [tag] + [] == [tag] && [tag] + [Raw(tag.name, rest[..stop])] == [tag, Raw(tag.name, rest[..stop])];
  }

  lemma FirstCloser(rest: string, name: string, stop: nat)
    requires stop <= |rest| && (forall i :: 0 <= i < stop ==> !Closes(rest[i..], name))
    requires (stop == |rest| || Closes(rest[stop..], name)) && LowerCase(name)
    ensures FindCloser(rest, name) == if stop == |rest| then -1 else stop
  {
    hide CloserAt, Closes, LowerCase;
    forall i | 0 <= i <= stop ensures CloserAt(rest[i..], name) == Closes(rest[i..], name) {
      CloserIs(rest[i..], name);
    }
    assert forall i :: 0 <= i < stop ==> !Closer(name)(rest[i..]);
    FirstIs(rest, Closer(name), stop);
  }

  // ---------- Comments, declarations, close tags, text ----------

  /** Somewhere in it. */
  ghost predicate Contains(s: string, pat: string) {
    exists i :: 0 <= i <= |s| - |pat| && s[i..][..|pat|] == pat
  }

  lemma {:induction false} FindIs(s: string, pat: string)
    requires pat != ""
    ensures Find(s, pat) >= 0 <==> Contains(s, pat)
  {
    if |s| >= |pat| {
      assert pat <= s <==> s[0..][..|pat|] == pat;
      FindIs(s[1..], pat);
      forall i | 0 <= i <= |s| - 1 - |pat| ensures s[1..][i..] == s[i + 1..] {
      }
      forall i | 1 <= i <= |s| - |pat| && s[i..][..|pat|] == pat ensures Contains(s[1..], pat) {
        assert s[1..][i - 1..] == s[i..];
      }
      if Contains(s[1..], pat) {
        var i :| 0 <= i <= |s| - 1 - |pat| && s[1..][i..][..|pat|] == pat;
        assert s[i + 1..][..|pat|] == pat;
      }
    }
  }

  /** A comment runs to the first "-->", or to the end of the page. */
  lemma CommentReads(t: string, rest: string, before: string)
    requires !Contains(t, "-->")
    ensures TokensFrom("<!--" + t + "-->" + rest, before) == Flushed(before) + [Comment(t)] + Tokens(rest)
    ensures TokensFrom("<!--" + t, before) == Flushed(before) + [Comment(t)]
  {
    hide Find, TokensFrom, Contains;
    FindIs(t, "-->");
    FindAfter(t, "-->", rest);
    var s, u := "<!--" + t + "-->" + rest, "<!--" + t;
    assert s[4..] == t + "-->" + rest && u[4..] == t;
    assert s[1..][0] == '!' && s[1..][1] == '-' && s[1..][2] == '-' && u[1..][0] == '!' && u[1..][1] == '-' && u[1..][2] == '-';
    assert (t + "-->" + rest)[..|t|] == t && (t + "-->" + rest)[|t| + 3..] == rest;
    MarkupStep(s, before);
    MarkupStep(u, before);
    NothingLeft();
  }

  lemma NothingLeft()
    ensures TokensFrom("", "") == []
  {
  }

  /** Any other declaration, and a processing instruction, runs to the first ">", or to the end of the page. */
  lemma DoctypeReads(t: string, rest: string, before: string)
    requires t != "" && (t[0] == '!' || t[0] == '?') && !("!--" <= t) && '>' !in t
    ensures TokensFrom("<" + t, before) == Flushed(before) + [Doctype(t)]
    ensures TokensFrom("<" + t + ">" + rest, before) == Flushed(before) + [Doctype(t)] + Tokens(rest)
  {
    hide Find, TokensFrom;
    QuoteFind('>', t, rest);
    var s, u := "<" + t + ">" + rest, "<" + t;
    assert s[1..] == t + ['>'] + rest && u[1..] == t;
    NoBang(t, rest);
    assert (t + ['>'] + rest)[..|t|] == t && (t + ['>'] + rest)[|t| + 1..] == rest;
    MarkupStep(s, before);
    MarkupStep(u, before);
    NothingLeft();
  }

  lemma NoBang(t: string, rest: string)
    requires !("!--" <= t) && '>' !in t
    ensures !Bang(t + ['>'] + rest) && !Bang(t)
  {
    var v := t + ['>'] + rest;
    assert forall i :: 0 <= i < |t| ==> v[i] == t[i];
    assert v[|t|] == '>';
    assert |t| >= 3 ==> (Bang(t) <==> t[..3] == "!--");
  }

  /** A close tag of up to 200 characters is read as its name, whatever stands between the name and the ">". */
  lemma CloseReads(name: string, junk: string, rest: string, before: string)
    requires TagName(name) && '>' !in junk && (junk == "" || !IsNameChar(junk[0])) && 3 + |name| + |junk| <= 200
    ensures TokensFrom("</" + name + junk + ">" + rest, before) == Flushed(before) + [CloseTag(Lower(name))] + Tokens(rest)
  {
    hide TokensFrom, Lower, Markup;
    CloseRead(name, junk, rest);
    MarkupStep("</" + name + junk + ">" + rest, before);
  }

  lemma CloseRead(name: string, junk: string, rest: string)
    requires TagName(name) && '>' !in junk && (junk == "" || !IsNameChar(junk[0])) && 3 + |name| + |junk| <= 200
    ensures var s := "</" + name + junk + ">" + rest;
            StartsMarkup(s) && Markup(s) == ([CloseTag(Lower(name))], rest)
  {
    hide IsNameChar, Lower, Span, TagName, StartsMarkup, Bang, CommentMarkup, OpenMarkup, DoctypeMarkup;
    var s := "</" + name + junk + ">" + rest;
    var m := Min(CLOSE_WINDOW, |s|);
    var z := (">" + rest)[..m - 2 - |name| - |junk|];
    var after := junk + z;
    Window(name, junk, rest, m);
    NameFirst(name, junk, rest);
    assert z[0] == '>' && after[..|junk|] == junk && after[|junk|] == '>';
    NameThenJunk(name, junk, after);
    var t := s[..m];
    assert t[2..] == name + after && |t| == m;
    assert t[2..][..|name|] == name && t[2..][|name|..] == after;
    assert s[3 + |name| + |junk|..] == rest;
    MarkupIsClose(s);
  }

  lemma MarkupIsClose(s: string)
    requires StartsMarkup(s) && s[1] == '/'
    ensures Markup(s) == CloseMarkup(s)
  {
  }

  lemma Window(name: string, junk: string, rest: string, m: nat)
    requires 3 + |name| + |junk| <= m <= 3 + |name| + |junk| + |rest|
    ensures var s := "</" + name + junk + ">" + rest;
            s[..m][2..] == name + (junk + (">" + rest)[..m - 2 - |name| - |junk|])
  {
  }

  lemma NameFirst(name: string, junk: string, rest: string)
    requires TagName(name)
    ensures var s := "</" + name + junk + ">" + rest;
            StartsMarkup(s) && s[1] == '/' && !Bang(s[1..])
  {
    hide IsLetter;
    var s := "</" + name + junk + ">" + rest;
    assert s[1] == '/' && s[2] == name[0];
  }

  lemma NameThenJunk(name: string, junk: string, after: string)
    requires TagName(name) && '>' !in junk && (junk == "" || !IsNameChar(junk[0]))
    requires |after| > |junk| && after[..|junk|] == junk && after[|junk|] == '>'
    ensures Span(name + after, IsNameChar) == |name| && (name + after)[|name|..] == after && (name + after)[..|name|] == name
    ensures Span(after, IsNotGt) == |junk|
  {
    assert forall i :: 0 <= i < |name| ==> name[i] in name;
    assert after[0] == if junk == "" then '>' else junk[0];
    SpanOf(name, after, IsNameChar);
    assert forall i :: 0 <= i < |junk| ==> junk[i] in junk;
    assert after == junk + after[|junk|..];
    SpanOf(junk, after[|junk|..], IsNotGt);
  }

  /** Text is everything else: whatever is no "<", and a "<" that starts nothing. */
  lemma TextReads(c: char, s: string, before: string)
    requires c != '<' || s == "" || (!IsLetter(s[0]) && s[0] != '!' && s[0] != '?'
                                     && (s[0] == '/' ==> |s| == 1 || !IsLetter(s[1])))
    ensures TokensFrom([c] + s, before) == TokensFrom(s, before + [c])
  {
    hide IsLetter;
    var t := [c] + s;
    assert t[1..] == s && (|t| > 1 ==> t[1] == s[0]) && (|t| > 2 ==> t[2] == s[1]);
  }

  /** At the end of the page what was collected is one token. */
  lemma EndReads(before: string)
    ensures TokensFrom("", before) == if before == "" then [] else [Text(before)]
  {
  }

  // ---------- What is written ----------

  /** Escaping changes "&" and the quote that delimits, and nothing else. */
  lemma EscapeExactly(c: char, rest: string)
    ensures EscapeAttr("") == ""
    ensures EscapeAttr([c] + rest)
         == (if c == '&' then "&amp;" else if c == '"' then "&quot;" else [c]) + EscapeAttr(rest)
  {
    EscapeAttrCons([c] + rest);
    assert ([c] + rest)[1..] == rest;
  }

  /** Tokens are written one after the other. */
  lemma {:induction false} SerializeConcat(a: seq<Token>, b: seq<Token>)
    ensures Serialize(a + b) == Serialize(a) + Serialize(b)
  {
    hide TokenText;
    if a == [] {
      assert a + b == b && Serialize(a) + Serialize(b) == Serialize(b);
    } else {
      assert (a + b)[1..] == a[1..] + b;
      SerializeConcat(a[1..], b);
    }
  }

  /** Each in its one form: a tag's attributes in order, each value between double quotes. */
  lemma WrittenForms(name: string, text: string, a: Attr, attrs: seq<Attr>, v: string)
    ensures TokenText(Text(text)) == text && TokenText(Raw(name, text)) == text
    ensures TokenText(Comment(text)) == "<!--" + text + "-->" && TokenText(Doctype(text)) == "<" + text + ">"
    ensures TokenText(CloseTag(name)) == "</" + name + ">"
    ensures TokenText(OpenTag(name, attrs, false)) == "<" + name + AttrsText(attrs) + ">"
    ensures TokenText(OpenTag(name, attrs, true)) == "<" + name + AttrsText(attrs) + " />"
    ensures AttrsText([]) == "" && AttrsText([a] + attrs) == AttrText(a) + AttrsText(attrs)
    ensures AttrText(Attr(name, None)) == " " + name && AttrText(Attr(name, Some(v))) == " " + name + "=\"" + EscapeAttr(v) + "\""
  {
    hide EscapeAttr;
    assert ([a] + attrs)[1..] == attrs;
    assert " " + name + "" == " " + name;
    assert " " + name + ("=\"" + EscapeAttr(v) + "\"") == " " + name + "=\"" + EscapeAttr(v) + "\"";
  }
}

/**
 * Print/parse normal form: what the serializer writes of any tokenized page, the tokenizer reads back as the
 * same tokens, except that a close tag filling the tokenizer's window sheds its ">" as text.
 */
module HtmlRoundTrip {
  import opened Basics
  import opened Characters
  import opened HtmlText
  import opened Html

  // ---------- Every tokenized page is canonical ----------

  lemma LowerKeepsAttrName(s: string)
    requires s != "" && All(s, IsAttrNameChar)
    ensures IsAttrName(Lower(s))
  {
    LowerTwice(s);
  }

  lemma LowerKeepsName(s: string)
    requires s != "" && IsLetter(s[0]) && All(s, IsNameChar)
    ensures IsName(Lower(s))
  {
    LowerTwice(s);
  }

  lemma {:induction false} ReadAttrsCanonical(s: string, attrs: seq<Attr>)
    requires CanonicalAttrs(attrs)
    ensures CanonicalAttrs(ReadAttrs(s, attrs).attrs)
    decreases |s|
  {
    hide IsSpace, IsAttrNameChar, Decode, AttrValue, Lower, IsAttrName;
    var u := s[Span(s, IsSpace)..];
    if u != "" && !("/>" <= u) && u[0] != '>' {
      var n := Span(u, IsAttrNameChar);
      if n == 0 {
        ReadAttrsCanonical(u[1..], attrs);
      } else {
        LowerKeepsAttrName(u[..n]);
        var name, v := Lower(u[..n]), u[n..];
        var k := Span(v, IsSpace);
        if k < |v| && v[k] == '=' {
          var w := v[k + 1..];
          var (value, rest) := AttrValue(w[Span(w, IsSpace)..]);
          ReadAttrsCanonical(rest, attrs + [Attr(name, Some(Decode(value)))]);
        } else {
          ReadAttrsCanonical(v, attrs + [Attr(name, None)]);
        }
      }
    }
  }

  lemma {:induction false} SpanPrefix(a: string, b: string, p: char -> bool)
    requires Span(a, p) < |a|
    ensures Span(a + b, p) == Span(a, p)
  {
    var n := Span(a, p);
    assert a + b == a[..n] + (a[n..] + b);
    SpanOf(a[..n], a[n..] + b, p);
  }

  lemma CloserAtLonger(a: string, b: string, name: string)
    requires CloserAt(a, name)
    ensures CloserAt(a + b, name)
  {
    var n := 2 + |name|;
    assert (a + b)[..2] == a[..2] && (a + b)[2..n] == a[2..n];
    assert (a + b)[n..] == a[n..] + b;
    SpanPrefix(a[n..], b, IsSpace);
  }

  /** No closer lies within the body that ends at the first one. */
  lemma BodyHoldsNoCloser(s: string, name: string, stop: int)
    requires stop == if FindCloser(s, name) < 0 then |s| else FindCloser(s, name)
    ensures FindCloser(s[..stop], name) < 0
  {
    var body := s[..stop];
    forall i | 0 <= i < stop ensures !Closer(name)(body[i..]) {
      NoneBeforeFirst(s, Closer(name), i);
      assert body[i..] + s[stop..] == s[i..];
      if CloserAt(body[i..], name) {
        CloserAtLonger(body[i..], s[stop..], name);
      }
    }
    FirstIs(body, Closer(name), |body|);
  }

  /** What can follow the tokens of one construct. */
  predicate Leaves(tokens: seq<Token>, rest: string) {
    && |tokens| >= 1 && !tokens[0].Raw? && !tokens[0].Text?
    && (forall i :: 0 <= i < |tokens| ==> CanonicalToken(tokens[i]))
    && (if |tokens| == 1 then HoldsRaw(tokens[0]) ==> rest == "" || CloserAt(rest, tokens[0].name)
        else |tokens| == 2 && HoldsRaw(tokens[0]) && tokens[1].Raw? && tokens[1].parent == tokens[0].name
             && (rest == "" || CloserAt(rest, tokens[0].name)))
  }

  lemma WithBodyLeaves(tag: Token, rest: string)
    requires tag.OpenTag? && CanonicalToken(tag)
    ensures Leaves(WithBody(tag, rest).0, WithBody(tag, rest).1)
  {
    if HoldsRaw(tag) {
      var close := FindCloser(rest, tag.name);
      var stop := if close < 0 then |rest| else close;
      BodyHoldsNoCloser(rest, tag.name, stop);
    }
  }

  lemma OpenLeaves(s: string)
    requires |s| >= 2 && IsLetter(s[1])
    ensures Leaves(OpenMarkup(s).0, OpenMarkup(s).1)
  {
    var u := s[1..];
    var n := Span(u, IsNameChar);
    assert n > 0;
    LowerKeepsName(u[..n]);
    ReadAttrsCanonical(u[n..], []);
    var end := ReadAttrs(u[n..], []);
    WithBodyLeaves(OpenTag(Lower(u[..n]), end.attrs, end.selfClosing), end.rest);
  }

  lemma CloseLeaves(s: string)
    requires |s| > 2 && IsLetter(s[2])
    ensures Leaves(CloseMarkup(s).0, CloseMarkup(s).1)
  {
    var t := s[..Min(CLOSE_WINDOW, |s|)];
    var n := Span(t[2..], IsNameChar);
    assert t[2] == s[2] && n > 0;
    LowerKeepsName(t[2..][..n]);
  }

  lemma CommentLeaves(s: string)
    requires |s| >= 4
    ensures Leaves(CommentMarkup(s).0, CommentMarkup(s).1)
  {
    hide Find;
    if Find(s[4..], "-->") >= 0 {
      FindBefore(s[4..], "-->");
    }
  }

  lemma DoctypeText(u: string, stop: int)
    requires u != "" && !Bang(u) && (u[0] == '!' || u[0] == '?')
    requires stop == if Find(u, ">") < 0 then |u| else Find(u, ">")
    ensures CanonicalToken(Doctype(u[..stop]))
  {
    hide Find, FindCloser, IsName, PlainText, CanonicalAttrs;
    if Find(u, ">") >= 0 {
      FindBefore(u, ">");
    } else {
      assert u[..stop] == u;
    }
    assert stop < |u| ==> u[stop] == ">"[0];
  }

  lemma DoctypeLeaves(s: string)
    requires |s| >= 2 && !Bang(s[1..]) && (s[1] == '!' || s[1] == '?')
    ensures Leaves(DoctypeMarkup(s).0, DoctypeMarkup(s).1)
  {
    hide Find, CanonicalToken;
    var u := s[1..];
    var stop := if Find(u, ">") < 0 then |u| else Find(u, ">");
    DoctypeText(u, stop);
    assert stop == |u| ==> u[..stop] == u;
  }

  lemma MarkupLeaves(s: string)
    requires StartsMarkup(s)
    ensures Leaves(Markup(s).0, Markup(s).1)
  {
    if Bang(s[1..]) {
      CommentLeaves(s);
    } else if s[1] == '!' || s[1] == '?' {
      DoctypeLeaves(s);
    } else if s[1] == '/' {
      CloseLeaves(s);
    } else {
      OpenLeaves(s);
    }
  }

  /** A closer is tokenized as the close tag of that name. */
  lemma CloserIsCloseTag(s: string, name: string)
    requires CloserAt(s, name) && IsName(name) && |name| < 100
    ensures StartsMarkup(s) && Markup(s).0 == [CloseTag(name)]
  {
    var n := |name|;
    var written := s[2..2 + n];
    assert s[0] == s[..2][0] && s[1] == s[..2][1] && s[2] == written[0];
    assert LowerChar(written[0]) == name[0];
    assert All(written, IsNameChar) by {
      forall i | 0 <= i < n ensures IsNameChar(written[i]) {
        assert LowerChar(written[i]) == name[i];
      }
    }
    var t := s[..Min(CLOSE_WINDOW, |s|)];
    var k := Span(s[2 + n..], IsSpace);
    assert s[2 + n..][0] == s[2 + n] == t[2 + n];
    if k > 0 {
      assert s[2 + n..][..k][0] == s[2 + n];
    }
    assert t[2..] == written + t[2 + n..];
    SpanOf(written, t[2 + n..], IsNameChar);
    assert t[2..][..n] == written;
  }

  /** Nothing that follows a plain text can turn its "<" into markup, nor did what followed it. */
  lemma PlainInContext(u: string, rest: string)
    requires u != "" && (rest == "" || rest[0] == '<')
    ensures StartsMarkup(u + rest) == (StartsMarkup(u) || (|u| == 0 && StartsMarkup(rest)))
  {
    assert (u + rest)[0] == u[0];
  }

  lemma ChainPrefix(tokens: seq<Token>, rest: seq<Token>)
    requires 1 <= |tokens| <= 2 && (forall i :: 0 <= i < |tokens| ==> CanonicalToken(tokens[i]))
    requires |tokens| == 2 ==> Follows(tokens[0], Some(tokens[1]))
    requires Chained(rest) && Follows(tokens[|tokens| - 1], First(rest))
    ensures Chained(tokens + rest)
  {
    if |tokens| == 1 {
      assert (tokens + rest)[1..] == rest;
    } else {
      assert (tokens + rest)[1..] == [tokens[1]] + rest && ([tokens[1]] + rest)[1..] == rest;
    }
  }

  /** One construct's tokens in front of what the rest tokenizes to. */
  lemma ConstructCanonical(tokens: seq<Token>, rest: string, tail: seq<Token>)
    requires Leaves(tokens, rest) && Canonical(tail)
    requires rest == "" ==> tail == []
    requires StartsMarkup(rest) ==> First(tail) == Some(Markup(rest).0[0])
    ensures Canonical(tokens + tail) && First(tokens + tail) == Some(tokens[0])
  {
    hide Markup, CloserAt, FindCloser;
    if HoldsRaw(tokens[0]) && rest != "" {
      CloserIsCloseTag(rest, tokens[0].name);
    }
    ChainPrefix(tokens, tail);
  }

  lemma FlushedCanonical(text: string, s: string, tokens: seq<Token>)
    requires text != "" && (s == "" || s[0] == '<') && forall p :: 0 <= p < |text| ==> !StartsMarkup(text[p..] + s)
    requires Canonical(tokens) && (tokens == [] || !tokens[0].Text?)
    ensures Canonical([Text(text)] + tokens)
  {
    forall p | 0 <= p < |text| ensures !StartsMarkup(text[p..]) {
      PlainInContext(text[p..], s);
    }
    ChainPrefix([Text(text)], tokens);
  }

  /** Collected text, then whatever the rest tokenizes to. */
  lemma {:induction false} TokensCanonical(s: string, text: string)
    requires forall p :: 0 <= p < |text| ==> !StartsMarkup(text[p..] + s)
    ensures Canonical(TokensFrom(s, text))
    ensures text == "" && StartsMarkup(s) ==> First(TokensFrom(s, text)) == Some(Markup(s).0[0])
    decreases |s|
  {
    hide Markup;
    if s == "" {
      if text != "" {
        FlushedCanonical(text, s, []);
        assert [Text(text)] + [] == Flushed(text);
      }
    } else if StartsMarkup(s) {
      var (tokens, rest) := Markup(s);
      var tail := TokensFrom(rest, "");
      assert Canonical(tokens + tail) && First(tokens + tail) == Some(tokens[0]) && !tokens[0].Text? by {
        MarkupLeaves(s);
        TokensCanonical(rest, "");
        ConstructCanonical(tokens, rest, tail);
      }
      assert TokensFrom(s, text) == Flushed(text) + (tokens + tail);
      if text != "" {
        FlushedCanonical(text, s, tokens + tail);
      } else {
        assert [] + (tokens + tail) == tokens + tail;
      }
    } else {
      var more := text + [s[0]];
      forall p | 0 <= p < |more| ensures !StartsMarkup(more[p..] + s[1..]) {
        assert more[p..] + s[1..] == if p < |text| then text[p..] + s else s;
      }
      TokensCanonical(s[1..], more);
    }
  }

  // ---------- Printing is parsed back ----------

  lemma CommentBack(text: string, rest: string)
    requires Find(text, "-->") < 0
    ensures var s := TokenText(Comment(text)) + rest;
            StartsMarkup(s) && Bang(s[1..]) && CommentMarkup(s) == ([Comment(text)], rest)
  {
    hide Find;
    var s := TokenText(Comment(text)) + rest;
    var t := text + "-->" + rest;
    assert s == "<!--" + t && s[..4] == "<!--" && s[4..] == t;
    FindAfter(text, "-->", rest);
    assert t[..|text|] == text && t[|text| + 3..] == rest;
  }

  lemma DoctypeNotComment(text: string, rest: string)
    requires text != "" && !Bang(text)
    ensures !Bang(text + ">" + rest)
  {
    var u := text + ">" + rest;
    assert u[|text|] == '>';
    assert forall i :: 0 <= i < |text| ==> u[i] == text[i];
  }

  lemma DoctypeBack(text: string, rest: string)
    requires CanonicalToken(Doctype(text))
    ensures var s := TokenText(Doctype(text)) + rest;
            && StartsMarkup(s) && !Bang(s[1..]) && (s[1] == '!' || s[1] == '?')
            && DoctypeMarkup(s) == ([Doctype(text)], rest)
  {
    hide Find, Bang;
    var s := TokenText(Doctype(text)) + rest;
    var t := text + ">" + rest;
    assert s == "<" + t && s[1..] == t && s[1] == text[0];
    assert Find(t, ">") == |text| by {
      FindAfter(text, ">", rest);
    }
    assert t[..|text|] == text && t[|text| + 1..] == rest;
    DoctypeNotComment(text, rest);
  }

  lemma CloseBack(name: string, rest: string)
    requires CanonicalToken(CloseTag(name))
    ensures var s := TokenText(CloseTag(name)) + rest;
            && StartsMarkup(s) && s[1] == '/'
            && CloseMarkup(s) == ([CloseTag(name)], if LongClose(CloseTag(name)) then ">" + rest else rest)
  {
    var s := TokenText(CloseTag(name)) + rest;
    assert s == "</" + name + (">" + rest);
    assert s[0] == '<' && s[1] == '/' && s[2] == name[0];
    if LongClose(CloseTag(name)) {
      LongCloseBack(name, rest);
      assert name[..CLOSE_WINDOW - 2] == name && name[CLOSE_WINDOW - 2..] + (">" + rest) == ">" + rest;
    } else {
      ShortCloseBack(name, rest);
    }
  }

  /** A close tag whose name fills the window is cut there: the rest of its name and its ">" are left over. */
  lemma LongCloseBack(name: string, rest: string)
    requires IsName(name) && |name| >= CLOSE_WINDOW - 2
    ensures CloseMarkup("</" + name + (">" + rest))
         == ([CloseTag(name[..CLOSE_WINDOW - 2])], name[CLOSE_WINDOW - 2..] + (">" + rest))
  {
    var s, cut := "</" + name + (">" + rest), name[..CLOSE_WINDOW - 2];
    var t := s[..Min(CLOSE_WINDOW, |s|)];
    assert t[2..] == cut + "";
    SpanOf(cut, "", IsNameChar);
    assert t[2..][..|cut|] == cut && Lower(cut) == cut by {
      assert forall i :: 0 <= i < |cut| ==> Lower(cut)[i] == Lower(name)[i];
    }
    assert s[CLOSE_WINDOW..] == name[CLOSE_WINDOW - 2..] + (">" + rest);
  }

  lemma ShortCloseBack(name: string, rest: string)
    requires IsName(name) && |name| <= CLOSE_WINDOW - 3
    ensures CloseMarkup("</" + name + (">" + rest)) == ([CloseTag(name)], rest)
  {
    var s := "</" + name + (">" + rest);
    var n := |name|;
    var t := s[..Min(CLOSE_WINDOW, |s|)];
    var after := t[2 + n..];
    assert t[2..] == name + after && after[0] == '>';
    SpanOf(name, after, IsNameChar);
    assert t[2..][n..] == after && t[2..][..n] == name;
    assert Span(after, IsNotGt) == 0;
    assert s[3 + n..] == rest;
  }

  function TagClosing(selfClosing: bool): string {
    if selfClosing then " />" else ">"
  }

  lemma OneSpace(u: string)
    requires u != "" && !IsSpace(u[0])
    ensures Span(" " + u, IsSpace) == 1 && (" " + u)[1..] == u && Span(u, IsSpace) == 0
  {
    SpanOf(" ", u, IsSpace);
  }

  /** All that is written after an open tag's name. */
  function TagTail(attrs: seq<Attr>, selfClosing: bool, rest: string): string {
    AttrsText(attrs) + TagClosing(selfClosing) + rest
  }

  lemma TagTailCons(attrs: seq<Attr>, selfClosing: bool, rest: string)
    requires attrs != []
    ensures TagTail(attrs, selfClosing, rest)
         == " " + (attrs[0].name + (ValueText(attrs[0].value) + TagTail(attrs[1..], selfClosing, rest)))
  {
  }

  /** What follows an attribute is not read as its "=". */
  predicate EndsAttr(z: string) {
    && z != "" && !IsAttrNameChar(z[0]) && !IsNameChar(z[0])
    && (var k := Span(z, IsSpace); k >= |z| || z[k] != '=')
  }

  lemma TagTailEndsAttr(attrs: seq<Attr>, selfClosing: bool, rest: string)
    requires CanonicalAttrs(attrs)
    ensures EndsAttr(TagTail(attrs, selfClosing, rest))
  {
    var z := TagTail(attrs, selfClosing, rest);
    if attrs != [] {
      TagTailCons(attrs, selfClosing, rest);
      OneSpace(attrs[0].name + (ValueText(attrs[0].value) + TagTail(attrs[1..], selfClosing, rest)));
    } else if selfClosing {
      assert z == " " + ("/>" + rest);
      OneSpace("/>" + rest);
    } else {
      assert z == ">" + rest;
    }
  }

  lemma QuotedValueBack(value: string, z: string)
    ensures var w := "\"" + EscapeAttr(value) + "\"" + z;
            && w[Span(w, IsSpace)..] == w && AttrValue(w) == (EscapeAttr(value), z) && Decode(AttrValue(w).0) == value
  {
    var esc := EscapeAttr(value);
    var w := "\"" + esc + "\"" + z;
    assert w[1..] == esc + "\"" + z;
    EscapedHasNoQuote(value);
    FindAfter(esc, "\"", z);
    DecodeEscape(value);
    assert w[1..][..|esc|] == esc && w[1..][|esc| + 1..] == z;
    assert [w[0]] == "\"";
    SpanOf("", w, IsSpace);
    assert "" + w == w;
  }

  lemma BareAttrBack(name: string, z: string, before: seq<Attr>)
    requires IsAttrName(name) && EndsAttr(z)
    ensures ReadAttrs(" " + (name + z), before) == ReadAttrs(z, before + [Attr(name, None)])
  {
    var u := name + z;
    assert u[0] == name[0];
    OneSpace(u);
    SpanOf(name, z, IsAttrNameChar);
    assert u[..|name|] == name && u[|name|..] == z;
  }

  lemma ValuedAttrBack(name: string, value: string, z: string, before: seq<Attr>)
    requires IsAttrName(name)
    ensures ReadAttrs(" " + (name + (ValueText(Some(value)) + z)), before) == ReadAttrs(z, before + [Attr(name, Some(value))])
  {
    var w := "\"" + EscapeAttr(value) + "\"" + z;
    var v := ValueText(Some(value)) + z;
    assert v == "=" + w && v[1..] == w;
    var u := name + v;
    assert u[0] == name[0];
    OneSpace(u);
    SpanOf(name, v, IsAttrNameChar);
    assert u[..|name|] == name && u[|name|..] == v;
    assert Span(v, IsSpace) == 0;
    QuotedValueBack(value, z);
  }

  lemma TagEndBack(selfClosing: bool, rest: string, before: seq<Attr>)
    ensures ReadAttrs(TagTail([], selfClosing, rest), before) == TagEnd(before, selfClosing, rest)
  {
    var s := TagTail([], selfClosing, rest);
    if selfClosing {
      var u := "/>" + rest;
      assert s == " " + u;
      OneSpace(u);
      assert u[..2] == "/>" && u[2..] == rest;
    } else {
      assert s == ">" + rest && s[0..] == s && s[1..] == rest;
    }
  }

  lemma AttrBack(a: Attr, z: string, before: seq<Attr>)
    requires IsAttrName(a.name) && EndsAttr(z)
    ensures ReadAttrs(" " + (a.name + (ValueText(a.value) + z)), before) == ReadAttrs(z, before + [a])
  {
    match a.value
    case None =>
      assert ValueText(None) + z == z;
      BareAttrBack(a.name, z, before);
    case Some(value) => ValuedAttrBack(a.name, value, z, before);
  }

  lemma {:induction false} AttrsBack(attrs: seq<Attr>, selfClosing: bool, rest: string, before: seq<Attr>)
    requires CanonicalAttrs(attrs)
    ensures ReadAttrs(TagTail(attrs, selfClosing, rest), before) == TagEnd(before + attrs, selfClosing, rest)
    decreases |attrs|
  {
    hide ReadAttrs, TagTail;
    if attrs == [] {
      assert before + attrs == before;
      TagEndBack(selfClosing, rest, before);
    } else {
      var s, z := TagTail(attrs, selfClosing, rest), TagTail(attrs[1..], selfClosing, rest);
      var next := before + [attrs[0]];
      var end := TagEnd(before + attrs, selfClosing, rest);
      assert ReadAttrs(z, next) == end by {
        AttrsBack(attrs[1..], selfClosing, rest, next);
        assert next + attrs[1..] == before + attrs;
      }
      assert ReadAttrs(s, before) == end by {
        TagTailCons(attrs, selfClosing, rest);
        TagTailEndsAttr(attrs[1..], selfClosing, rest);
        AttrBack(attrs[0], z, before);
      }
    }
  }

  lemma OpenBack(name: string, attrs: seq<Attr>, selfClosing: bool, rest: string)
    requires CanonicalToken(OpenTag(name, attrs, selfClosing))
    ensures var s := TokenText(OpenTag(name, attrs, selfClosing)) + rest;
            StartsMarkup(s) && IsLetter(s[1]) && OpenMarkup(s) == WithBody(OpenTag(name, attrs, selfClosing), rest)
  {
    hide ReadAttrs, WithBody, AttrsText;
    var s := TokenText(OpenTag(name, attrs, selfClosing)) + rest;
    var y := TagTail(attrs, selfClosing, rest);
    assert s == "<" + (name + y);
    assert s[1..] == name + y && s[1] == name[0];
    assert Span(s[1..], IsNameChar) == |name| by {
      TagTailEndsAttr(attrs, selfClosing, rest);
      SpanOf(name, y, IsNameChar);
    }
    assert ReadAttrs(y, []) == TagEnd(attrs, selfClosing, rest) by {
      AttrsBack(attrs, selfClosing, rest, []);
      assert [] + attrs == attrs;
    }
    assert s[1..][..|name|] == name && s[1..][|name|..] == y;
  }

  /** The closer the serializer writes is the first one after a body that holds none. */
  lemma FindCloserAfter(text: string, name: string, rest: string)
    requires FindCloser(text, name) < 0 && IsName(name)
    ensures FindCloser(text + (TokenText(CloseTag(name)) + rest), name) == |text|
  {
    var tail := TokenText(CloseTag(name)) + rest;
    var s := text + tail;
    forall i | 0 <= i < |text| ensures !Closer(name)(s[i..]) {
      NoneBeforeFirst(text, Closer(name), i);
      assert s[i..] == text[i..] + tail;
      if CloserAt(text[i..] + tail, name) {
        NoCloserAcross(text[i..], tail, name);
      }
    }
    CloserHere(name, rest);
    assert s[|text|..] == tail;
    FirstIs(s, Closer(name), |text|);
  }

  lemma CloserHere(name: string, rest: string)
    requires IsName(name)
    ensures CloserAt(TokenText(CloseTag(name)) + rest, name)
  {
    var s := TokenText(CloseTag(name)) + rest;
    var n := 2 + |name|;
    assert s == "</" + name + (">" + rest);
    assert s[..2] == "</" && s[2..n] == name && s[n..] == "" + (">" + rest);
    SpanOf("", ">" + rest, IsSpace);
  }

  /** A closer that starts in `a` cannot reach over a "<". */
  lemma NoCloserAcross(a: string, b: string, name: string)
    requires a != "" && b != "" && b[0] == '<' && IsName(name) && CloserAt(a + b, name)
    ensures CloserAt(a, name)
  {
    var s := a + b;
    var n := 2 + |name|;
    var k := Span(s[n..], IsSpace);
    assert s[|a|] == '<';
    forall i | 1 <= i <= n + k ensures s[i] != '<' {
      if i == 1 {
        assert s[..2][1] == '/';
      } else if i < n {
        assert LowerChar(s[2..n][i - 2]) == name[i - 2];
      } else if i < n + k {
        assert s[n..][..k][i - n] == s[i];
      }
    }
    assert n + k < |a|;
    assert a[..2] == s[..2] && a[2..n] == s[2..n];
    assert s[n..] == a[n..] + b;
    assert a[n..][..k] == s[n..][..k] && a[n..][k] == s[n..][k];
    assert a[n..] == a[n..][..k] + a[n..][k..];
    SpanOf(a[n..][..k], a[n..][k..], IsSpace);
  }

  lemma {:induction false} TextRun(t: string, rest: string, before: string)
    requires forall p :: 0 <= p < |t| ==> !StartsMarkup(t[p..] + rest)
    ensures TokensFrom(t + rest, before) == TokensFrom(rest, before + t)
  {
    if t == "" {
      assert t + rest == rest && before + t == before;
    } else {
      assert t[0..] + rest == t + rest;
      assert (t + rest)[1..] == t[1..] + rest;
      forall p | 0 <= p < |t[1..]| ensures !StartsMarkup(t[1..][p..] + rest) {
        assert t[1..][p..] == t[p + 1..];
      }
      TextRun(t[1..], rest, before + [t[0]]);
      assert before + [t[0]] + t[1..] == before + t;
    }
  }

  /** How many tokens the construct at the head of a token list is. */
  function Construct(tokens: seq<Token>): nat
    requires tokens != []
    ensures 1 <= Construct(tokens) <= |tokens|
  {
    if HoldsRaw(tokens[0]) && |tokens| > 1 && tokens[1].Raw? then 2 else 1
  }

  lemma WithRawBody(tag: Token, body: string, tail: string)
    requires HoldsRaw(tag) && body != ""
    requires FindCloser(body + tail, tag.name) == if tail == "" then -1 else |body|
    ensures WithBody(tag, body + tail) == ([tag, Raw(tag.name, body)], tail)
  {
    assert (body + tail)[..|body|] == body && (body + tail)[|body|..] == tail;
    assert tail == "" ==> |body + tail| == |body|;
  }

  lemma WithoutBody(tag: Token, rest: string)
    requires HoldsRaw(tag)
    requires rest == "" || FindCloser(rest, tag.name) == 0
    ensures WithBody(tag, rest) == ([tag], rest)
  {
    assert rest[0..] == rest;
  }

  /** A raw element's open tag, alone or with its body. */
  lemma BodyBack(tokens: seq<Token>)
    requires Canonical(tokens) && tokens != [] && HoldsRaw(tokens[0])
    ensures var k := Construct(tokens); WithBody(tokens[0], Serialize(tokens[1..])) == (tokens[..k], Serialize(tokens[k..]))
  {
    var name := tokens[0].name;
    var rest := Serialize(tokens[1..]);
    if Construct(tokens) == 2 {
      var body, tail := tokens[1].text, Serialize(tokens[2..]);
      assert tokens[1..][1..] == tokens[2..] && tokens[..2] == [tokens[0], tokens[1]];
      assert rest == body + tail;
      assert WithBody(tokens[0], body + tail) == ([tokens[0], Raw(name, body)], tail) by {
        RawBodyBack(tokens[1..], name);
        WithRawBody(tokens[0], body, tail);
      }
    } else {
      assert tokens[..1] == [tokens[0]];
      assert rest == "" || FindCloser(rest, name) == 0 by {
        if |tokens| > 1 {
          assert rest == TokenText(CloseTag(name)) + Serialize(tokens[1..][1..]);
          assert "" + rest == rest;
          FindCloserAfter("", name, Serialize(tokens[1..][1..]));
        }
      }
      WithoutBody(tokens[0], rest);
    }
  }

  lemma RawBodyBack(tokens: seq<Token>, name: string)
    requires Chained(tokens) && tokens != [] && tokens[0].Raw? && tokens[0].parent == name && IsName(name)
    ensures var body, tail := tokens[0].text, Serialize(tokens[1..]);
            FindCloser(body + tail, name) == if tail == "" then -1 else |body|
  {
    var body, tail := tokens[0].text, Serialize(tokens[1..]);
    if |tokens| > 1 {
      assert tail == TokenText(CloseTag(name)) + Serialize(tokens[1..][1..]);
      FindCloserAfter(body, name, Serialize(tokens[1..][1..]));
    } else {
      assert body + tail == body;
    }
  }

  lemma TagBack(tokens: seq<Token>)
    requires Canonical(tokens) && tokens != [] && tokens[0].OpenTag?
    ensures var s, k := Serialize(tokens), Construct(tokens);
            StartsMarkup(s) && IsLetter(s[1]) && OpenMarkup(s) == (tokens[..k], Serialize(tokens[k..]))
  {
    var rest, s, k := Serialize(tokens[1..]), Serialize(tokens), Construct(tokens);
    assert StartsMarkup(s) && IsLetter(s[1]) && OpenMarkup(s) == WithBody(tokens[0], rest) by {
      OpenBack(tokens[0].name, tokens[0].attrs, tokens[0].selfClosing, rest);
    }
    assert WithBody(tokens[0], rest) == (tokens[..k], Serialize(tokens[k..])) by {
      if HoldsRaw(tokens[0]) {
        BodyBack(tokens);
      } else {
        assert tokens[..1] == [tokens[0]];
      }
    }
  }

  lemma ConstructRest(tokens: seq<Token>)
    requires Canonical(tokens) && tokens != [] && !tokens[0].Text?
    ensures Canonical(tokens[Construct(tokens)..])
  {
    var rest := tokens[1..];
    assert Chained(rest) && (rest != [] ==> First(rest) == Some(tokens[1]));
    if Construct(tokens) == 2 {
      assert rest[1..] == tokens[2..];
      assert Chained(rest[1..]) && (rest[1..] != [] ==> rest[1..][0].CloseTag?);
    }
  }

  /** Printed markup is parsed back, one construct at a time. */
  lemma MarkupBack(tokens: seq<Token>)
    requires Canonical(tokens) && tokens != [] && !tokens[0].Text?
    ensures var s, k := Serialize(tokens), Construct(tokens);
            && StartsMarkup(s)
            && Markup(s) == (tokens[..k], (if LongClose(tokens[0]) then ">" else "") + Serialize(tokens[k..]))
  {
    hide CloseMarkup, OpenMarkup, CommentMarkup, DoctypeMarkup;
    var rest := Serialize(tokens[1..]);
    assert tokens[..1] == [tokens[0]] && "" + rest == rest;
    match tokens[0]
    case Comment(text) => CommentBack(text, rest);
    case Doctype(text) => DoctypeBack(text, rest);
    case CloseTag(name) => CloseBack(name, rest);
    case OpenTag(_, _, _) =>
      TagBack(tokens);
      var after := Serialize(tokens[Construct(tokens)..]);
      assert "" + after == after;
  }

  lemma FlushFirst(s: string, text: string)
    requires text != "" && (s == "" || StartsMarkup(s))
    ensures TokensFrom(s, text) == [Text(text)] + TokensFrom(s, "")
  {
    hide Markup;
  }

  lemma TextBack(tokens: seq<Token>, before: string)
    requires Canonical(tokens) && tokens != [] && tokens[0].Text?
    ensures TokensFrom(Serialize(tokens), before) == [Text(before + tokens[0].text)] + TokensFrom(Serialize(tokens[1..]), "")
    ensures Canonical(tokens[1..])
  {
    var t, rest := tokens[0].text, Serialize(tokens[1..]);
    assert rest == "" || StartsMarkup(rest) by {
      if tokens[1..] != [] {
        MarkupBack(tokens[1..]);
      }
    }
    assert TokensFrom(t + rest, before) == TokensFrom(rest, before + t) by {
      forall p | 0 <= p < |t| ensures !StartsMarkup(t[p..] + rest) {
        PlainInContext(t[p..], rest);
      }
      TextRun(t, rest, before);
    }
    FlushFirst(rest, before + t);
  }

  lemma TripConstruct(tokens: seq<Token>, before: string)
    requires tokens != [] && !tokens[0].Text? && Canonical(tokens)
    ensures var k := Construct(tokens);
            Trip(before, tokens)
            == Flushed(before) + tokens[..k] + Trip(if LongClose(tokens[0]) then ">" else "", tokens[k..])
  {
    var k := Construct(tokens);
    if k == 2 {
      assert tokens[1..][1..] == tokens[2..];
      assert Trip("", tokens[1..]) == [tokens[1]] + Trip("", tokens[2..]);
      assert tokens[..2] == [tokens[0]] + [tokens[1]];
    } else {
      assert tokens[..1] == [tokens[0]];
    }
  }

  /** One more trip of canonical tokens, whatever text was collected before them. */
  lemma {:induction false} TripIs(tokens: seq<Token>, before: string)
    requires Canonical(tokens)
    ensures TokensFrom(Serialize(tokens), before) == Trip(before, tokens)
    decreases |tokens|
  {
    if tokens == [] {
    } else if tokens[0].Text? {
      TextBack(tokens, before);
      TripIs(tokens[1..], "");
    } else {
      var k := Construct(tokens);
      var rest := Serialize(tokens[k..]);
      MarkupBack(tokens);
      TripConstruct(tokens, before);
      ConstructRest(tokens);
      if LongClose(tokens[0]) {
        TripIs(tokens[k..], ">");
        assert (">" + rest)[1..] == rest && "" + [(">" + rest)[0]] == ">";
      } else {
        TripIs(tokens[k..], "");
        assert "" + rest == rest;
      }
    }
  }

  // ---------- The normal form ----------

  /** All text in a token list, in characters. */
  function TextSize(tokens: seq<Token>): nat {
    if tokens == [] then 0
    else (if tokens[0].Text? then |tokens[0].text| else 0) + TextSize(tokens[1..])
  }

  function LongCloses(tokens: seq<Token>): nat {
    if tokens == [] then 0 else (if LongClose(tokens[0]) then 1 else 0) + LongCloses(tokens[1..])
  }

  lemma {:induction false} TextSizeConcat(a: seq<Token>, b: seq<Token>)
    ensures TextSize(a + b) == TextSize(a) + TextSize(b)
  {
    if a == [] {
      assert a + b == b;
    } else {
      assert (a + b)[1..] == a[1..] + b;
      TextSizeConcat(a[1..], b);
    }
  }

  lemma {:induction false} TripSize(text: string, tokens: seq<Token>)
    ensures TextSize(Trip(text, tokens)) == |text| + TextSize(tokens) + LongCloses(tokens)
    decreases |tokens|
  {
    if tokens != [] {
      var next := if LongClose(tokens[0]) then ">" else "";
      TripSize(next, tokens[1..]);
      if tokens[0].Text? {
        TextSizeConcat([Text(text + tokens[0].text)], Trip("", tokens[1..]));
      } else {
        TextSizeConcat(Flushed(text) + [tokens[0]], Trip(next, tokens[1..]));
        TextSizeConcat(Flushed(text), [tokens[0]]);
      }
    }
  }

  lemma {:induction false} TripIdentity(tokens: seq<Token>)
    requires LongCloses(tokens) == 0
    ensures Trip("", tokens) == tokens
  {
    if tokens != [] {
      TripIdentity(tokens[1..]);
      if tokens[0].Text? {
        assert "" + tokens[0].text == tokens[0].text;
      }
    }
  }

  lemma {:induction false} LongClosesNone(tokens: seq<Token>)
    ensures LongCloses(tokens) == 0 <==> forall i :: 0 <= i < |tokens| ==> !LongClose(tokens[i])
  {
    if tokens != [] {
      LongClosesNone(tokens[1..]);
      assert forall i :: 0 < i < |tokens| ==> tokens[i] == tokens[1..][i - 1];
      assert forall i :: 0 <= i < |tokens[1..]| ==> tokens[1..][i] == tokens[i + 1];
    }
  }

  /** What a second trip makes of any page, unterminated comments, tags, quotes and raw elements included. */
  lemma SecondTrip(html: string)
    ensures Canonical(Tokens(html))
    ensures Tokens(Serialize(Tokens(html))) == Trip("", Tokens(html))
  {
    TokensCanonical(html, "");
    TripIs(Tokens(html), "");
  }

  /** Tokenizing what was serialized gives back the same tokens if and only if no close tag of the page has a
      name of more than 197 characters. */
  lemma RoundTripExactly(html: string)
    ensures Tokens(Serialize(Tokens(html))) == Tokens(html)
            <==> forall i :: 0 <= i < |Tokens(html)| && Tokens(html)[i].CloseTag? ==> |Tokens(html)[i].name| <= 197
  {
    var tokens := Tokens(html);
    SecondTrip(html);
    LongClosesNone(tokens);
    assert (forall i :: 0 <= i < |tokens| ==> !LongClose(tokens[i]))
      <==> (forall i :: 0 <= i < |tokens| && tokens[i].CloseTag? ==> |tokens[i].name| <= 197);
    if LongCloses(tokens) == 0 {
      TripIdentity(tokens);
    } else {
      TripSize("", tokens);
    }
  }
}

/**
 * The tokenizer's two loops (src/providers/schoolsoft/capture/html.ts), proved to give Html.Tokens. The
 * position `i` in the page is held as what is left of it, `html.slice(i)`.
 */
module HtmlScanner {
  import opened Basics
  import opened Characters
  import opened HtmlText
  import opened Html

  /** What one turn of `readTag`'s loop finds after the space. */
  lemma OneTurn(s: string, u: string, attrs: seq<Attr>)
    requires u == s[Span(s, IsSpace)..]
    ensures u == "" ==> ReadAttrs(s, attrs) == TagEnd(attrs, false, "")
    ensures "/>" <= u ==> ReadAttrs(s, attrs) == TagEnd(attrs, true, u[2..])
    ensures u != "" && u[0] == '>' ==> ReadAttrs(s, attrs) == TagEnd(attrs, false, u[1..])
    ensures u != "" && !("/>" <= u) && u[0] != '>' && Span(u, IsAttrNameChar) == 0 ==>
              ReadAttrs(s, attrs) == ReadAttrs(u[1..], attrs)
  {
    hide AttrValue, Decode, Span;
  }

  /** An attribute there: bare, or with a value. */
  lemma OneAttr(s: string, u: string, v: string, attrs: seq<Attr>)
    requires u == s[Span(s, IsSpace)..] && u != "" && !("/>" <= u) && u[0] != '>'
    requires Span(u, IsAttrNameChar) > 0 && v == u[Span(u, IsAttrNameChar)..]
    ensures var name, k := Lower(u[..Span(u, IsAttrNameChar)]), Span(v, IsSpace);
            ReadAttrs(s, attrs) ==
            if k < |v| && v[k] == '=' then
              var w := v[k + 1..];
              var value := AttrValue(w[Span(w, IsSpace)..]);
              ReadAttrs(value.1, attrs + [Attr(name, Some(Decode(value.0)))])
            else ReadAttrs(v, attrs + [Attr(name, None)])
  {
    hide AttrValue, Decode, Lower, Span;
  }

  /** The loop of `readTag`, from just after the tag's name. */
  method ReadAttributes(after: string) returns (attrs: seq<Attr>, selfClosing: bool, rest: string)
    ensures TagEnd(attrs, selfClosing, rest) == ReadAttrs(after, [])
  {
    hide ReadAttrs, AttrValue, Decode, Lower, Span;
    attrs := [];
    var s := after;
    while true
      invariant ReadAttrs(s, attrs) == ReadAttrs(after, [])
      decreases |s|
    {
      var u := s[Span(s, IsSpace)..];
      OneTurn(s, u, attrs);
      if u == "" {
        return attrs, false, "";
      }
      if "/>" <= u {
        return attrs, true, u[2..];
      }
      if u[0] == '>' {
        return attrs, false, u[1..];
      }
      var n := Span(u, IsAttrNameChar);
      if n == 0 {
        s := u[1..]; // no name starts here
        continue;
      }
      var name, v := Lower(u[..n]), u[n..];
      OneAttr(s, u, v, attrs);
      var k := Span(v, IsSpace);
      if k < |v| && v[k] == '=' {
        var w := v[k + 1..];
        var (value, next) := AttrValue(w[Span(w, IsSpace)..]);
        attrs, s := attrs + [Attr(name, Some(Decode(value)))], next;
      } else {
        attrs, s := attrs + [Attr(name, None)], v;
      }
    }
  }

  /** `readTag`, and the body the tag swallows if it is a raw element's. */
  method ReadTag(s: string) returns (tokens: seq<Token>, rest: string)
    requires |s| >= 2
    ensures (tokens, rest) == OpenMarkup(s)
  {
    hide ReadAttrs, Span, Lower, FindCloser;
    var n := Span(s[1..], IsNameChar);
    var attrs, selfClosing, after := ReadAttributes(s[1..][n..]);
    var tag := OpenTag(Lower(s[1..][..n]), attrs, selfClosing);
    tokens, rest := [tag], after;
    if !selfClosing && tag.name in RAW_ELEMENTS {
      var close := FindCloser(rest, tag.name);
      var stop := if close < 0 then |rest| else close;
      if stop > 0 {
        tokens := [tag, Raw(tag.name, rest[..stop])];
      }
      rest := rest[stop..];
    }
  }

  lemma MarkupStep(s: string, text: string)
    requires StartsMarkup(s)
    ensures TokensFrom(s, text) == Flushed(text) + (Markup(s).0 + TokensFrom(Markup(s).1, ""))
  {
    hide Markup;
    var (tokens, rest) := Markup(s);
    assert Flushed(text) + tokens + TokensFrom(rest, "") == Flushed(text) + (tokens + TokensFrom(rest, ""));
  }

  /** `tokenize` */
  method Tokenize(html: string) returns (out: seq<Token>)
    ensures out == Tokens(html)
  {
    hide CommentMarkup, DoctypeMarkup, CloseMarkup, OpenMarkup;
    out := [];
    var s, text := html, "";
    while s != ""
      invariant out + TokensFrom(s, text) == Tokens(html)
      decreases |s|
    {
      if !StartsMarkup(s) {
        text, s := text + [s[0]], s[1..]; // text, a lone "<" included
        continue;
      }
      MarkupStep(s, text);
      var found;
      if Bang(s[1..]) {
        found := CommentMarkup(s);
      } else if s[1] == '!' || s[1] == '?' {
        found := DoctypeMarkup(s);
      } else if s[1] == '/' {
        found := CloseMarkup(s);
      } else {
        var tag, after := ReadTag(s);
        found := (tag, after);
      }
      var (tokens, rest) := found;
      assert out + (Flushed(text) + (tokens + TokensFrom(rest, ""))) == out + Flushed(text) + tokens + TokensFrom(rest, "");
      out, text, s := out + Flushed(text) + tokens, "", rest;
    }
    out := out + Flushed(text);
  }
}

/** The tokenizer and the serializer of the capture probe (src/providers/schoolsoft/capture/html.ts), on what is left of the page. */
module Html {
  import opened Basics
  import opened Characters
  import opened HtmlText

  datatype Attr = Attr(name: string, value: Option<string>)

  datatype Token =
    | Text(text: string)
    | Raw(parent: string, text: string)
    | Comment(text: string)
    | Doctype(text: string)
    | OpenTag(name: string, attrs: seq<Attr>, selfClosing: bool)
    | CloseTag(name: string)

  const RAW_ELEMENTS := {"script", "style", "textarea", "title"}

  /** The close-tag pattern only sees this many characters. */
  const CLOSE_WINDOW := 200

  // ---------- What the code does ----------

  datatype TagEnd = TagEnd(attrs: seq<Attr>, selfClosing: bool, rest: string)

  /** The quoted or bare value after "=", and what follows it. */
  function AttrValue(s: string): (r: (string, string))
    ensures |r.1| <= |s|
  {
    if s != "" && (s[0] == '"' || s[0] == '\'') then
      var close := Find(s[1..], [s[0]]);
      if close < 0 then (s[1..], "") else (s[1..][..close], s[1..][close + 1..])
    else
      var n := Span(s, IsBareValueChar);
      (s[..n], s[n..])
  }

  /** The loop of `readTag`, from just after the tag's name or its last attribute. */
  function ReadAttrs(s: string, attrs: seq<Attr>): (r: TagEnd)
    ensures |r.rest| <= |s|
    decreases |s|
  {
    var u := s[Span(s, IsSpace)..];
    if u == "" then TagEnd(attrs, false, "")
    else if "/>" <= u then TagEnd(attrs, true, u[2..])
    else if u[0] == '>' then TagEnd(attrs, false, u[1..])
    else
      var n := Span(u, IsAttrNameChar);
      if n == 0 then ReadAttrs(u[1..], attrs)
      else
        var name, v := Lower(u[..n]), u[n..];
        var k := Span(v, IsSpace);
        if k < |v| && v[k] == '=' then
          var w := v[k + 1..];
          var (value, rest) := AttrValue(w[Span(w, IsSpace)..]);
          ReadAttrs(rest, attrs + [Attr(name, Some(Decode(value)))])
        else ReadAttrs(v, attrs + [Attr(name, None)])
  }

  /** Does `</name\s*>`, in any case, match here? */
  predicate CloserAt(s: string, name: string) {
    var n := 2 + |name|;
    && |s| > n && s[..2] == "</" && Lower(s[2..n]) == name
    && (var k := Span(s[n..], IsSpace); n + k < |s| && s[n + k] == '>')
  }

  function Closer(name: string): string -> bool {
    s => CloserAt(s, name)
  }

  /** Where a raw element's body ends, -1 when nothing closes it. */
  function FindCloser(s: string, name: string): (r: int)
    ensures -1 <= r <= |s|
    ensures r >= 0 ==> CloserAt(s[r..], name)
  {
    FindFirst(s, Closer(name))
  }

  predicate HoldsRaw(t: Token) {
    t.OpenTag? && !t.selfClosing && t.name in RAW_ELEMENTS
  }

  /** An open tag with the body it swallows, if it is a raw element's. */
  function WithBody(tag: Token, rest: string): (r: (seq<Token>, string))
    requires tag.OpenTag?
    ensures |r.1| <= |rest|
  {
    if HoldsRaw(tag) then
      var close := FindCloser(rest, tag.name);
      var stop := if close < 0 then |rest| else close;
      (if stop > 0 then [tag, Raw(tag.name, rest[..stop])] else [tag], rest[stop..])
    else ([tag], rest)
  }

  function OpenMarkup(s: string): (r: (seq<Token>, string))
    requires |s| >= 2
    ensures |r.1| < |s|
  {
    var n := Span(s[1..], IsNameChar);
    var end := ReadAttrs(s[1..][n..], []);
    WithBody(OpenTag(Lower(s[1..][..n]), end.attrs, end.selfClosing), end.rest)
  }

  function CloseMarkup(s: string): (r: (seq<Token>, string))
    requires |s| >= 2
    ensures |r.1| < |s|
  {
    var t := s[..Min(CLOSE_WINDOW, |s|)];
    var n := Span(t[2..], IsNameChar);
    var junk := Span(t[2..][n..], IsNotGt);
    var used := 2 + n + junk + if 2 + n + junk < |t| then 1 else 0;
    ([CloseTag(Lower(t[2..][..n]))], s[used..])
  }

  /** Is a "<" here more than text? */
  predicate StartsMarkup(s: string) {
    && |s| >= 2 && s[0] == '<'
    && (s[1] == '!' || s[1] == '?' || IsLetter(s[1]) || (s[1] == '/' && |s| > 2 && IsLetter(s[2])))
  }

  /** After a "<": does `!--` follow? */
  predicate Bang(u: string) {
    |u| >= 3 && u[0] == '!' && u[1] == '-' && u[2] == '-'
  }

  function CommentMarkup(s: string): (r: (seq<Token>, string))
    requires |s| >= 4
    ensures |r.1| < |s|
  {
    var end := Find(s[4..], "-->");
    if end < 0 then ([Comment(s[4..])], "") else ([Comment(s[4..][..end])], s[4..][end + 3..])
  }

  function DoctypeMarkup(s: string): (r: (seq<Token>, string))
    requires |s| >= 2
    ensures |r.1| < |s|
  {
    var u := s[1..];
    var end := Find(u, ">");
    if end < 0 then ([Doctype(u)], "") else ([Doctype(u[..end])], u[end + 1..])
  }

  /** The tokens of the construct a "<" starts, and what follows it. */
  function Markup(s: string): (r: (seq<Token>, string))
    requires StartsMarkup(s)
    ensures |r.1| < |s|
  {
    if Bang(s[1..]) then CommentMarkup(s)
    else if s[1] == '!' || s[1] == '?' then DoctypeMarkup(s)
    else if s[1] == '/' then CloseMarkup(s)
    else OpenMarkup(s)
  }

  function Flushed(text: string): seq<Token> {
    if text == "" then [] else [Text(text)]
  }

  /** The main loop of `tokenize`: `s` is left, `text` is collected and not yet flushed. */
  function TokensFrom(s: string, text: string): seq<Token>
    decreases |s|
  {
    if s == "" then Flushed(text)
    else if StartsMarkup(s) then
      var (tokens, rest) := Markup(s);
      Flushed(text) + tokens + TokensFrom(rest, "")
    else TokensFrom(s[1..], text + [s[0]])
  }

  function Tokens(html: string): seq<Token> {
    TokensFrom(html, "")
  }

  function ValueText(value: Option<string>): string {
    match value
    case None => ""
    case Some(v) => "=\"" + EscapeAttr(v) + "\""
  }

  function AttrText(a: Attr): string {
    " " + a.name + ValueText(a.value)
  }

  function AttrsText(attrs: seq<Attr>): string {
    if attrs == [] then "" else AttrText(attrs[0]) + AttrsText(attrs[1..])
  }

  function TokenText(t: Token): string {
    match t
    case Text(text) => text
    case Raw(_, text) => text
    case Comment(text) => "<!--" + text + "-->"
    case Doctype(text) => "<" + text + ">"
    case OpenTag(name, attrs, selfClosing) => "<" + name + AttrsText(attrs) + (if selfClosing then " />" else ">")
    case CloseTag(name) => "</" + name + ">"
  }

  function Serialize(tokens: seq<Token>): string {
    if tokens == [] then "" else TokenText(tokens[0]) + Serialize(tokens[1..])
  }

  // ---------- Token lists that tokenizing can produce ----------

  /** Text that stays text, whatever tag or end of page follows it. */
  predicate PlainText(t: string) {
    t != "" && forall p :: 0 <= p < |t| ==> !StartsMarkup(t[p..])
  }

  predicate IsName(s: string) {
    s != "" && IsLetter(s[0]) && All(s, IsNameChar) && Lower(s) == s
  }

  predicate IsAttrName(s: string) {
    s != "" && All(s, IsAttrNameChar) && Lower(s) == s
  }

  predicate CanonicalAttrs(attrs: seq<Attr>) {
    forall i :: 0 <= i < |attrs| ==> IsAttrName(attrs[i].name)
  }

  predicate CanonicalToken(t: Token) {
    match t
    case Text(text) => PlainText(text)
    case Raw(name, text) => text != "" && FindCloser(text, name) < 0
    case Comment(text) => Find(text, "-->") < 0
    case Doctype(text) => text != "" && (text[0] == '!' || text[0] == '?') && Find(text, ">") < 0 && !Bang(text)
    case OpenTag(name, attrs, _) => IsName(name) && CanonicalAttrs(attrs)
    case CloseTag(name) => IsName(name) && |name| <= CLOSE_WINDOW - 2
  }

  /** May `next` (None: the end) follow `t`? */
  predicate Follows(t: Token, next: Option<Token>) {
    if next == None then true
    else if HoldsRaw(t) then
      (next.value.Raw? && next.value.parent == t.name) || next.value == CloseTag(t.name)
    else if t.Raw? then next.value == CloseTag(t.parent)
    else !next.value.Raw? && !(t.Text? && next.value.Text?)
  }

  function First(tokens: seq<Token>): Option<Token> {
    if tokens == [] then None else Some(tokens[0])
  }

  predicate Chained(tokens: seq<Token>) {
    tokens != [] ==> CanonicalToken(tokens[0]) && Follows(tokens[0], First(tokens[1..])) && Chained(tokens[1..])
  }

  predicate Canonical(tokens: seq<Token>) {
    Chained(tokens) && (tokens != [] ==> !tokens[0].Raw?)
  }

  /** What one more trip through print and parse makes of canonical tokens: a close tag whose name fills the
      window loses its ">", which becomes text. */
  function Trip(text: string, tokens: seq<Token>): seq<Token>
    decreases |tokens|
  {
    if tokens == [] then Flushed(text)
    else if tokens[0].Text? then [Text(text + tokens[0].text)] + Trip("", tokens[1..])
    else Flushed(text) + [tokens[0]] + Trip(if LongClose(tokens[0]) then ">" else "", tokens[1..])
  }

  predicate LongClose(t: Token) {
    t.CloseTag? && |t.name| > CLOSE_WINDOW - 3
  }
}

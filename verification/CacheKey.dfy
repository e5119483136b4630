/** The key of a cached read: two JSON texts, one inside the other (src/core/portal/cached.ts). */
module CacheKey {
  import opened Characters

  /** An argument of a read. Whole numbers stand for all numbers. */
  datatype Arg = Undefined | Null | Flag(flag: bool) | Whole(number: int) | Text(text: string)

  datatype Scope = Scope(provider: string, school: string, userId: int, childId: int)

  // ---------- Normalized arguments ----------

  function Trim(s: string): string
    decreases |s|
  {
    if s == "" then s
    else if IsSpace(s[0]) then Trim(s[1..])
    else if IsSpace(s[|s| - 1]) then Trim(s[..|s| - 1])
    else s
  }

  function Normal(a: Arg): Arg {
    match a
    case Undefined => Null
    case Text(s) => Text(Trim(s))
    case _ => a
  }

  function Normals(args: seq<Arg>): seq<Arg> {
    if args == [] then [] else Normals(args[..|args| - 1]) + [Normal(args[|args| - 1])]
  }

  function WithoutGaps(list: seq<Arg>): seq<Arg> {
    if list != [] && list[|list| - 1] == Null then WithoutGaps(list[..|list| - 1]) else list
  }

  function Normalized(args: seq<Arg>): seq<Arg> {
    WithoutGaps(Normals(args))
  }

  /** The list that `normalizeArgs` turns into JSON. */
  method NormalizeList(args: seq<Arg>) returns (list: seq<Arg>)
    ensures list == Normalized(args)
  {
    list := [];
    for i := 0 to |args|
      invariant list == Normals(args[..i])
    {
      assert args[..i + 1][..i] == args[..i];
      list := list + [Normal(args[i])];
    }
    assert args[..|args|] == args;
    while list != [] && list[|list| - 1] == Null
      invariant WithoutGaps(list) == Normalized(args)
    {
      list := list[..|list| - 1];
    }
  }

  /** Trailing gaps vanish, and normalizing again changes nothing. */
  lemma {:induction false} NormalizedIs(args: seq<Arg>)
    ensures Normalized(args + [Undefined]) == Normalized(args) == Normalized(args + [Null])
    ensures var list := Normalized(args);
            Normalized(list) == list && (list == [] || list[|list| - 1] != Null)
  {
    assert (args + [Undefined])[..|args|] == args && (args + [Null])[..|args|] == args;
    assert (Normals(args) + [Null])[..|Normals(args)|] == Normals(args);
    NormalsStay(args);
    GapsStay(Normals(args));
  }

  predicate Spaces(s: string) {
    forall c :: c in s ==> IsSpace(c)
  }

  /** Trimming takes off space at both ends, all of it and nothing else. */
  lemma {:induction false} TrimIs(s: string) returns (a: string, b: string)
    ensures s == a + Trim(s) + b && Spaces(a) && Spaces(b)
    ensures Trim(s) != "" ==> !IsSpace(Trim(s)[0]) && !IsSpace(Trim(s)[|Trim(s)| - 1])
    decreases |s|
  {
    hide IsSpace, Spaces;
    NoSpaces();
    a, b := "", "";
    if s != "" && IsSpace(s[0]) {
      a, b := TrimIs(s[1..]);
      Longer(s[0], s[1..], a, Trim(s[1..]), b);
      assert s == [s[0]] + s[1..];
      a := [s[0]] + a;
    } else if s != "" && IsSpace(s[|s| - 1]) {
      var n := |s| - 1;
      a, b := TrimIs(s[..n]);
      LongerEnd(s[..n], a, Trim(s[..n]), b, s[n]);
      assert s == s[..n] + [s[n]];
      b := b + [s[n]];
    } else {
      assert s == "" + Trim(s) + "";
    }
  }

  lemma NoSpaces()
    ensures Spaces("")
  {
  }

  lemma Longer(c: char, s: string, a: string, m: string, b: string)
    requires s == a + m + b && IsSpace(c) && Spaces(a)
    ensures [c] + s == ([c] + a) + m + b && Spaces([c] + a)
  {
    hide IsSpace;
  }

  lemma LongerEnd(s: string, a: string, m: string, b: string, c: char)
    requires s == a + m + b && IsSpace(c) && Spaces(b)
    ensures s + [c] == a + m + (b + [c]) && Spaces(b + [c])
  {
    hide IsSpace;
  }

  /** What the key is made of: each argument as it is, undefined as null, texts trimmed, without the trailing gaps. */
  lemma {:induction false} NormalizedExactly(args: seq<Arg>)
    ensures var list := Normalized(args);
            && |list| <= |args|
            && (forall i :: 0 <= i < |list| ==>
                  list[i] == match args[i] case Undefined => Null case Text(s) => Text(Trim(s)) case a => a)
            && (forall i :: |list| <= i < |args| ==> args[i] == Undefined || args[i] == Null)
            && (list != [] ==> args[|list| - 1] != Undefined && args[|list| - 1] != Null)
  {
    hide Trim;
    NormalsAre(args);
    GapsAre(Normals(args));
  }

  lemma {:induction false} NormalsAre(args: seq<Arg>)
    ensures |Normals(args)| == |args| && forall i :: 0 <= i < |args| ==> Normals(args)[i] == Normal(args[i])
  {
    hide Normal;
    if args != [] {
      NormalsAre(args[..|args| - 1]);
    }
  }

  lemma {:induction false} GapsAre(list: seq<Arg>)
    ensures var r := WithoutGaps(list);
            && r <= list && (forall i :: |r| <= i < |list| ==> list[i] == Null) && (r != [] ==> r[|r| - 1] != Null)
  {
    if list != [] && list[|list| - 1] == Null {
      GapsAre(list[..|list| - 1]);
    }
  }

  lemma {:induction false} TrimTwice(s: string)
    ensures Trim(Trim(s)) == Trim(s)
    decreases |s|
  {
    if s != "" && IsSpace(s[0]) {
      TrimTwice(s[1..]);
    } else if s != "" && IsSpace(s[|s| - 1]) {
      TrimTwice(s[..|s| - 1]);
    }
  }

  lemma {:induction false} NormalsStay(args: seq<Arg>)
    ensures forall a :: a in Normals(args) ==> Normal(a) == a
  {
    hide Trim;
    if args != [] {
      NormalsStay(args[..|args| - 1]);
      var last := args[|args| - 1];
      if last.Text? {
        TrimTwice(last.text);
      }
    }
  }

  lemma {:induction false} GapsStay(list: seq<Arg>)
    requires forall a :: a in list ==> Normal(a) == a
    ensures var r := WithoutGaps(list); Normals(r) == r && WithoutGaps(r) == r && (r == [] || r[|r| - 1] != Null)
  {
    hide Normal;
    if list != [] && list[|list| - 1] == Null {
      GapsStay(list[..|list| - 1]);
    } else {
      NormalsSame(list);
    }
  }

  lemma {:induction false} NormalsSame(list: seq<Arg>)
    requires forall a :: a in list ==> Normal(a) == a
    ensures Normals(list) == list
  {
    hide Normal;
    if list != [] {
      NormalsSame(list[..|list| - 1]);
    }
  }

  // ---------- JSON ----------

  const HEX := "0123456789abcdef"

  function Escape(c: char): string {
    if c == '"' then "\\\""
    else if c == '\\' then "\\\\"
    else if c == '\U{8}' then "\\b"
    else if c == '\U{9}' then "\\t"
    else if c == '\U{A}' then "\\n"
    else if c == '\U{C}' then "\\f"
    else if c == '\U{D}' then "\\r"
    else if c as int < 32 then "\\u00" + [HEX[c as int / 16], HEX[c as int % 16]]
    else [c]
  }

  /** The escaped text and its closing quote. */
  function Quoted(s: string): string {
    if s == "" then "\"" else Escape(s[0]) + Quoted(s[1..])
  }

  function Digits(n: nat): string {
    (if n < 10 then "" else Digits(n / 10)) + [HEX[n % 10]]
  }

  function Json(a: Arg): string {
    match a
    case Undefined => "null"
    case Null => "null"
    case Flag(flag) => if flag then "true" else "false"
    case Whole(n) => if n < 0 then "-" + Digits(-n) else Digits(n)
    case Text(s) => "\"" + Quoted(s)
  }

  function Tail(list: seq<Arg>): string {
    if list == [] then "]" else "," + Json(list[0]) + Tail(list[1..])
  }

  function JsonList(list: seq<Arg>): string {
    if list == [] then "[]" else "[" + Json(list[0]) + Tail(list[1..])
  }

  function KeyOf(scope: Scope, capability: string, args: seq<Arg>): string {
    JsonList([
      Text(scope.provider), Text(scope.school), Whole(scope.userId), Whole(scope.childId), Text(capability),
      Text(JsonList(Normalized(args)))])
  }

  // ---------- One text, one value ----------

  /** The first two characters of an escape tell its length. */
  lemma EscapeShape(c: char)
    ensures var e := Escape(c);
            && |e| in {1, 2, 6} && (e[0] == '\\' <==> |e| > 1)
            && (|e| > 1 ==> (e[1] == 'u' <==> |e| == 6))
  {
  }

  lemma EscapeSame(a: char, b: char)
    requires Escape(a) == Escape(b)
    ensures a == b
  {
    if |Escape(a)| == 6 {
      assert Escape(a)[4] == HEX[a as int / 16] && Escape(a)[5] == HEX[a as int % 16];
      assert Escape(b)[4] == HEX[b as int / 16] && Escape(b)[5] == HEX[b as int % 16];
      HexUnique(a as int / 16, b as int / 16);
      HexUnique(a as int % 16, b as int % 16);
    }
  }

  lemma EscapeUnique(a: char, b: char, x: string, y: string)
    requires Escape(a) + x == Escape(b) + y
    ensures a == b && x == y
  {
    hide Escape;
    var s, t := Escape(a) + x, Escape(b) + y;
    EscapeShape(a);
    EscapeShape(b);
    assert s[0] == Escape(a)[0] && t[0] == Escape(b)[0];
    if |Escape(a)| > 1 && |Escape(b)| > 1 {
      assert s[1] == Escape(a)[1] && t[1] == Escape(b)[1];
    }
    assert Escape(a) == s[..|Escape(a)|] && Escape(b) == t[..|Escape(b)|];
    EscapeSame(a, b);
    assert x == s[|Escape(a)|..] && y == t[|Escape(b)|..];
  }

  lemma HexUnique(a: nat, b: nat)
    requires a < 16 && b < 16 && HEX[a] == HEX[b]
    ensures a == b
  {
  }

  lemma EscapeStarts(c: char)
    ensures |Escape(c)| >= 1 && Escape(c)[0] != '"'
  {
  }

  lemma {:induction false} QuotedUnique(s: string, t: string, x: string, y: string)
    requires Quoted(s) + x == Quoted(t) + y
    ensures s == t && x == y
  {
    hide Escape;
    var p, q := Quoted(s) + x, Quoted(t) + y;
    if s == "" || t == "" {
      if s != "" {
        EscapeStarts(s[0]);
      }
      if t != "" {
        EscapeStarts(t[0]);
      }
      assert p[0] == q[0];
      assert x == p[1..] && y == q[1..];
    } else {
      assert p == Escape(s[0]) + (Quoted(s[1..]) + x) && q == Escape(t[0]) + (Quoted(t[1..]) + y);
      EscapeUnique(s[0], t[0], Quoted(s[1..]) + x, Quoted(t[1..]) + y);
      QuotedUnique(s[1..], t[1..], x, y);
    }
  }

  lemma {:induction false} DigitsAre(n: nat)
    ensures |Digits(n)| >= 1 && forall c :: c in Digits(n) ==> IsDigit(c)
  {
    if n >= 10 {
      DigitsAre(n / 10);
    }
    assert IsDigit(HEX[n % 10]);
  }

  lemma {:induction false} DigitsUnique(a: nat, b: nat)
    requires Digits(a) == Digits(b)
    ensures a == b
  {
    var s, t := Digits(a), Digits(b);
    assert s[|s| - 1] == HEX[a % 10] && t[|t| - 1] == HEX[b % 10];
    HexUnique(a % 10, b % 10);
    assert s[..|s| - 1] == (if a < 10 then "" else Digits(a / 10));
    assert t[..|t| - 1] == (if b < 10 then "" else Digits(b / 10));
    if a >= 10 {
      DigitsAre(a / 10);
    }
    if b >= 10 {
      DigitsAre(b / 10);
    }
    if a >= 10 && b >= 10 {
      DigitsUnique(a / 10, b / 10);
    }
  }

  predicate Stops(x: string) {
    x != "" && (x[0] == ',' || x[0] == ']')
  }

  /** A run of digits ends where the digits end. */
  lemma RunUnique(s: string, t: string, x: string, y: string)
    requires s + x == t + y && Stops(x) && Stops(y)
    requires (forall c :: c in s ==> IsDigit(c)) && (forall c :: c in t ==> IsDigit(c))
    ensures s == t && x == y
  {
    var k := if |s| < |t| then |s| else |t|;
    assert (s + x)[k] == if k < |s| then s[k] else x[0];
    assert (t + y)[k] == if k < |t| then t[k] else y[0];
    assert (IsDigit((s + x)[k]) <==> k < |s|) && (IsDigit((t + y)[k]) <==> k < |t|);
    assert s == (s + x)[..|s|] && t == (t + y)[..|t|] && x == (s + x)[|s|..] && y == (t + y)[|t|..];
  }

  function First(a: Arg): char {
    match a
    case Undefined => 'n'
    case Null => 'n'
    case Flag(flag) => if flag then 't' else 'f'
    case Whole(n) => if n < 0 then '-' else Digits(n)[0]
    case Text(_) => '"'
  }

  lemma JsonStarts(a: Arg)
    ensures |Json(a)| >= 1 && Json(a)[0] == First(a)
    ensures a.Whole? ==> First(a) == '-' || IsDigit(First(a))
  {
    if a.Whole? && a.number >= 0 {
      DigitsAre(a.number);
      assert IsDigit(Digits(a.number)[0]);
    }
  }

  lemma DigitsRunUnique(i: nat, j: nat, x: string, y: string)
    requires Digits(i) + x == Digits(j) + y && Stops(x) && Stops(y)
    ensures i == j && x == y
  {
    DigitsAre(i);
    DigitsAre(j);
    RunUnique(Digits(i), Digits(j), x, y);
    DigitsUnique(i, j);
  }

  lemma WholeUnique(m: int, n: int, x: string, y: string)
    requires Json(Whole(m)) + x == Json(Whole(n)) + y && Stops(x) && Stops(y)
    ensures m == n && x == y
  {
    hide Digits, IsDigit, Stops;
    var s, t := Json(Whole(m)) + x, Json(Whole(n)) + y;
    JsonStarts(Whole(m));
    JsonStarts(Whole(n));
    assert s[0] == First(Whole(m)) && t[0] == First(Whole(n));
    SignOf(m);
    SignOf(n);
    if m < 0 {
      assert s[1..] == Digits(-m) + x && t[1..] == Digits(-n) + y;
      DigitsRunUnique(-m, -n, x, y);
    } else {
      DigitsRunUnique(m, n, x, y);
    }
  }

  lemma SignOf(n: int)
    ensures First(Whole(n)) == '-' <==> n < 0
  {
    if n >= 0 {
      DigitsAre(n);
      assert IsDigit(Digits(n)[0]);
    }
  }

  lemma JsonUnique(a: Arg, b: Arg, x: string, y: string)
    requires Json(a) + x == Json(b) + y && Stops(x) && Stops(y) && !a.Undefined? && !b.Undefined?
    ensures a == b && x == y
  {
    hide Json, Stops;
    JsonStarts(a);
    JsonStarts(b);
    var s, t := Json(a) + x, Json(b) + y;
    assert s[0] == First(a) && t[0] == First(b);
    SameKind(a, b);
    if a.Whole? {
      WholeUnique(a.number, b.number, x, y);
    } else if a.Text? {
      TextUnique(a.text, b.text, x, y);
    } else {
      assert x == s[|Json(a)|..] && y == t[|Json(b)|..];
    }
  }

  /** The first character tells the kind, and all of a null or a flag. */
  lemma SameKind(a: Arg, b: Arg)
    requires First(a) == First(b) && !a.Undefined? && !b.Undefined?
    requires (a.Whole? ==> First(a) == '-' || IsDigit(First(a))) && (b.Whole? ==> First(b) == '-' || IsDigit(First(b)))
    ensures (a.Whole? <==> b.Whole?) && (a.Text? <==> b.Text?) && (!a.Whole? && !a.Text? ==> a == b)
  {
    hide Digits;
  }

  lemma TextUnique(a: string, b: string, x: string, y: string)
    requires Json(Text(a)) + x == Json(Text(b)) + y
    ensures a == b && x == y
  {
    hide Quoted;
    var s, t := Json(Text(a)) + x, Json(Text(b)) + y;
    assert s[1..] == Quoted(a) + x && t[1..] == Quoted(b) + y;
    QuotedUnique(a, b, x, y);
  }

  lemma TailStops(list: seq<Arg>)
    ensures Stops(Tail(list))
  {
  }

  lemma {:induction false} TailUnique(a: seq<Arg>, b: seq<Arg>)
    requires Tail(a) == Tail(b) && Undefined !in a && Undefined !in b
    ensures a == b
  {
    hide Json;
    var s, t := Tail(a), Tail(b);
    if a != [] && b != [] {
      assert s[1..] == Json(a[0]) + Tail(a[1..]) && t[1..] == Json(b[0]) + Tail(b[1..]);
      TailStops(a[1..]);
      TailStops(b[1..]);
      JsonUnique(a[0], b[0], Tail(a[1..]), Tail(b[1..]));
      TailUnique(a[1..], b[1..]);
    } else {
      assert s[0] == t[0];
      assert a == [] && b == [];
    }
  }

  lemma JsonListUnique(a: seq<Arg>, b: seq<Arg>)
    requires JsonList(a) == JsonList(b) && Undefined !in a && Undefined !in b
    ensures a == b
  {
    hide Json;
    var s, t := JsonList(a), JsonList(b);
    if a != [] && b != [] {
      assert s[1..] == Json(a[0]) + Tail(a[1..]) && t[1..] == Json(b[0]) + Tail(b[1..]);
      TailStops(a[1..]);
      TailStops(b[1..]);
      JsonUnique(a[0], b[0], Tail(a[1..]), Tail(b[1..]));
      TailUnique(a[1..], b[1..]);
    } else {
      EmptyIsNoOther(a, b);
    }
  }

  lemma EmptyIsNoOther(a: seq<Arg>, b: seq<Arg>)
    requires JsonList(a) == JsonList(b) && (a == [] || b == [])
    ensures a == b
  {
    hide JsonList;
    NothingStarts(a);
    NothingStarts(b);
  }

  lemma NothingStarts(list: seq<Arg>)
    ensures |JsonList(list)| >= 2 && (JsonList(list)[1] == ']' <==> list == [])
  {
    hide Digits;
    if list != [] {
      JsonStarts(list[0]);
      assert JsonList(list)[1] == First(list[0]);
    }
  }

  lemma {:induction false} NoUndefined(args: seq<Arg>)
    ensures Undefined !in Normals(args) && Undefined !in Normalized(args)
  {
    if args != [] {
      NoUndefined(args[..|args| - 1]);
    }
    FewerGaps(Normals(args));
  }

  lemma {:induction false} FewerGaps(list: seq<Arg>)
    ensures forall a :: a in WithoutGaps(list) ==> a in list
  {
    if list != [] && list[|list| - 1] == Null {
      FewerGaps(list[..|list| - 1]);
    }
  }

  /** Equal keys come from the same scope, the same capability and the same normalized arguments. */
  lemma KeysUnique(s: Scope, t: Scope, f: string, g: string, a: seq<Arg>, b: seq<Arg>)
    requires KeyOf(s, f, a) == KeyOf(t, g, b)
    ensures s == t && f == g && Normalized(a) == Normalized(b)
  {
    hide JsonList, Normalized;
    var p := [Text(s.provider), Text(s.school), Whole(s.userId), Whole(s.childId), Text(f), Text(JsonList(Normalized(a)))];
    var q := [Text(t.provider), Text(t.school), Whole(t.userId), Whole(t.childId), Text(g), Text(JsonList(Normalized(b)))];
    JsonListUnique(p, q);
    assert p[0] == q[0] && p[1] == q[1] && p[2] == q[2] && p[3] == q[3] && p[4] == q[4] && p[5] == q[5];
    NoUndefined(a);
    NoUndefined(b);
    JsonListUnique(Normalized(a), Normalized(b));
  }
}

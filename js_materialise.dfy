/** The TypeScript code materialiser's text transform: a string holding a
    test is turned into the body handed to the AsyncFunction constructor by
    two regular-expression replacements,
      `^async\s+function\s+\w+\s*\([^)]*\)\s*{` replaced by the empty string, then
      `}$` replaced by the empty string.
    Both patterns are written here as hand-made matchers over characters. */
module JsMaterialise {
  import opened Wrappers

  /** The characters `\s` matches in a JavaScript regular expression: tab,
      line feed, vertical tab, form feed, carriage return, space, no-break
      space, the Unicode space separators, line and paragraph separator, and
      the byte order mark. */
  const SpaceChars: set<char> := {
    '\t', '\n', '\U{000B}', '\U{000C}', '\r', ' ', '\U{00A0}', '\U{1680}',
    '\U{2000}', '\U{2001}', '\U{2002}', '\U{2003}', '\U{2004}', '\U{2005}',
    '\U{2006}', '\U{2007}', '\U{2008}', '\U{2009}', '\U{200A}', '\U{2028}',
    '\U{2029}', '\U{202F}', '\U{205F}', '\U{3000}', '\U{FEFF}' }

  /** `\s` in a JavaScript regular expression. */
  predicate IsSpace(c: char) {
    c in SpaceChars
  }

  /** `\w` in a JavaScript regular expression without the `u` and `i` flags. */
  predicate IsWord(c: char) {
    'a' <= c <= 'z' || 'A' <= c <= 'Z' || '0' <= c <= '9' || c == '_'
  }

  /** No word character is white space. */
  lemma WordIsNotSpace(c: char)
    requires IsWord(c)
    ensures !IsSpace(c)
  {
    assert c as int < 0x80 && c != '\t' && c != '\n' && c != '\r' && c != ' ';
    assert c != '\U{000B}' && c != '\U{000C}';
  }

  /** The character classes the header pattern repeats. */
  datatype CharClass = Space | Word | NotCloseParen

  predicate InClass(k: CharClass, c: char) {
    match k
    case Space => IsSpace(c)
    case Word => IsWord(c)
    case NotCloseParen => c != ')'
  }

  /** Every character of `s` is in class `k`. */
  predicate AllIn(k: CharClass, s: string) {
    s == [] || (InClass(k, s[0]) && AllIn(k, s[1..]))
  }

  /** The longest prefix of `s` in class `k`, which a greedy `k*` consumes,
      and the text after it. */
  function SpanSplit(k: CharClass, s: string): (r: (string, string))
    ensures s == r.0 + r.1 && AllIn(k, r.0)
    ensures r.1 == [] || !InClass(k, r.1[0])
  {
    if s != [] && InClass(k, s[0]) then
      var (g, rest) := SpanSplit(k, s[1..]);
      ([s[0]] + g, rest)
    else ([], s)
  }

  /** The greedy span of `x + y` is `x` when `x` lies in the class and `y`
      does not start with a character of it. */
  lemma {:induction false} SpanStops(k: CharClass, x: string, y: string)
    requires AllIn(k, x)
    requires y == [] || !InClass(k, y[0])
    ensures SpanSplit(k, x + y) == (x, y)
  {
    if x == [] {
      assert x + y == y;
    } else {
      assert (x + y)[0] == x[0];
      assert (x + y)[1..] == x[1..] + y;
      SpanStops(k, x[1..], y);
      assert [x[0]] + x[1..] == x;
    }
  }

  /** The pieces of a matched header, one per variable part of the pattern:
      `async` gap1 `function` gap2 name gap3 `(` params `)` gap4 `{`. */
  datatype Header = Header(gap1: string, gap2: string, name: string, gap3: string,
                           params: string, gap4: string)

  /** The pieces fit the pattern: `\s+`, `\s+`, `\w+`, `\s*`, `[^)]*`, `\s*`. */
  predicate WellFormed(h: Header) {
    && h.gap1 != [] && AllIn(Space, h.gap1)
    && h.gap2 != [] && AllIn(Space, h.gap2)
    && h.name != [] && AllIn(Word, h.name)
    && AllIn(Space, h.gap3)
    && AllIn(NotCloseParen, h.params)
    && AllIn(Space, h.gap4)
  }

  /** The text of `async` gap1 `function` gap2 name. */
  function RenderHead(h: Header): string {
    "async" + h.gap1 + "function" + h.gap2 + h.name
  }

  /** The text of gap3 `(` params `)` gap4 `{`. */
  function RenderTail(h: Header): string {
    h.gap3 + "(" + h.params + ")" + h.gap4 + "{"
  }

  /** The text a header stands for. */
  function Render(h: Header): string {
    RenderHead(h) + RenderTail(h)
  }

  /** Steps over a literal at the front of `s`. */
  function After(lit: string, s: string): (r: Option<string>)
    ensures r.Some? <==> lit <= s
    ensures r.Some? ==> s == lit + r.value
  {
    if lit <= s then
      assert s == s[..|lit|] + s[|lit|..];
      Some(s[|lit|..])
    else None
  }

  /** Matches `async\s+function\s+\w+` at the front of `s`: the gaps, the
      name, and the rest of `s`. */
  function ParseHead(s: string): (r: Option<(string, string, string, string)>)
    ensures r.Some? ==> var (g1, g2, id, rest) := r.value;
      && g1 != [] && AllIn(Space, g1) && g2 != [] && AllIn(Space, g2)
      && id != [] && AllIn(Word, id)
      && s == "async" + (g1 + ("function" + (g2 + (id + rest))))
  {
    match After("async", s)
    case None => None
    case Some(s0) =>
      var (g1, s1) := SpanSplit(Space, s0);
      match After("function", s1)
      case None => None
      case Some(s2) =>
        var (g2, s3) := SpanSplit(Space, s2);
        var (id, rest) := SpanSplit(Word, s3);
        if g1 == [] || g2 == [] || id == [] then None
        else Some((g1, g2, id, rest))
  }

  /** Matches `\s*\([^)]*\)\s*{` at the front of `s`. */
  function ParseTail(s: string): (r: Option<(string, string, string, string)>)
    ensures r.Some? ==> var (g3, ps, g4, rest) := r.value;
      && AllIn(Space, g3) && AllIn(NotCloseParen, ps) && AllIn(Space, g4)
      && s == g3 + ("(" + (ps + (")" + (g4 + ("{" + rest)))))
  {
    var (g3, s0) := SpanSplit(Space, s);
    match After("(", s0)
    case None => None
    case Some(s1) =>
      var (ps, s2) := SpanSplit(NotCloseParen, s1);
      match After(")", s2)
      case None => None
      case Some(s3) =>
        var (g4, s4) := SpanSplit(Space, s3);
        match After("{", s4)
        case None => None
        case Some(rest) => Some((g3, ps, g4, rest))
  }

  lemma Associative(a: string, b: string, c: string)
    ensures a + b + c == a + (b + c)
  {
  }

  /** The head text followed by `x`, right-nested as the matcher takes it apart. */
  lemma HeadNested(h: Header, x: string)
    ensures RenderHead(h) + x == "async" + (h.gap1 + ("function" + (h.gap2 + (h.name + x))))
  {
    Associative("async" + h.gap1 + "function" + h.gap2, h.name, x);
    Associative("async" + h.gap1 + "function", h.gap2, h.name + x);
    Associative("async" + h.gap1, "function", h.gap2 + (h.name + x));
    Associative("async", h.gap1, "function" + (h.gap2 + (h.name + x)));
  }

  /** The tail text followed by `rest`, right-nested likewise. */
  lemma TailNested(h: Header, rest: string)
    ensures RenderTail(h) + rest == h.gap3 + ("(" + (h.params + (")" + (h.gap4 + ("{" + rest)))))
  {
    Associative(h.gap3 + "(" + h.params + ")" + h.gap4, "{", rest);
    Associative(h.gap3 + "(" + h.params + ")", h.gap4, "{" + rest);
    Associative(h.gap3 + "(" + h.params, ")", h.gap4 + ("{" + rest));
    Associative(h.gap3 + "(", h.params, ")" + (h.gap4 + ("{" + rest)));
    Associative(h.gap3, "(", h.params + (")" + (h.gap4 + ("{" + rest))));
  }

  /** The text of a header followed by `rest`, right-nested. */
  lemma RenderNested(h: Header, rest: string)
    ensures Render(h) + rest
         == "async" + (h.gap1 + ("function" + (h.gap2 + (h.name
              + (h.gap3 + ("(" + (h.params + (")" + (h.gap4 + ("{" + rest))))))))))
  {
    Associative(RenderHead(h), RenderTail(h), rest);
    TailNested(h, rest);
    HeadNested(h, RenderTail(h) + rest);
  }

  /** Matches the whole header pattern, anchored at the start of `s`, and
      gives the header and the text after it. Every quantifier in the
      pattern is followed by a character outside its class, so the greedy
      spans taken here are the only way to match. */
  function ParseHeader(s: string): (r: Option<(Header, string)>)
    ensures r.Some? ==> WellFormed(r.value.0) && s == Render(r.value.0) + r.value.1
  {
    match ParseHead(s)
    case None => None
    case Some((g1, g2, id, s1)) =>
      match ParseTail(s1)
      case None => None
      case Some((g3, ps, g4, rest)) =>
        var h := Header(g1, g2, id, g3, ps, g4);
        RenderNested(h, rest);
        Some((h, rest))
  }

  /** The head pattern matches the head of every well-formed header. */
  lemma {:induction false} ParseHeadRender(h: Header, tail: string)
    requires WellFormed(h)
    requires tail == [] || !IsWord(tail[0])
    ensures ParseHead(RenderHead(h) + tail) == Some((h.gap1, h.gap2, h.name, tail))
  {
    var t2 := h.name + tail;
    var t1 := "function" + (h.gap2 + t2);
    HeadNested(h, tail);
    assert After("async", "async" + (h.gap1 + t1)) == Some(h.gap1 + t1);
    assert t1[0] == 'f' && !IsSpace('f');
    SpanStops(Space, h.gap1, t1);
    assert After("function", t1) == Some(h.gap2 + t2);
    WordIsNotSpace(h.name[0]);
    SpanStops(Space, h.gap2, t2);
    SpanStops(Word, h.name, tail);
  }

  /** The tail pattern matches the tail of every well-formed header. */
  lemma {:induction false} ParseTailRender(h: Header, rest: string)
    requires WellFormed(h)
    ensures ParseTail(RenderTail(h) + rest) == Some((h.gap3, h.params, h.gap4, rest))
  {
    var t3 := h.gap4 + ("{" + rest);
    var t2 := ")" + t3;
    var t1 := "(" + (h.params + t2);
    TailNested(h, rest);
    assert t1[0] == '(' && !IsSpace('(');
    SpanStops(Space, h.gap3, t1);
    assert After("(", t1) == Some(h.params + t2);
    SpanStops(NotCloseParen, h.params, t2);
    assert After(")", t2) == Some(t3);
    assert ("{" + rest)[0] == '{' && !IsSpace('{');
    SpanStops(Space, h.gap4, "{" + rest);
    assert After("{", "{" + rest) == Some(rest);
  }

  /** Every well-formed header, followed by anything, is matched exactly. */
  lemma {:induction false} ParseRender(h: Header, rest: string)
    requires WellFormed(h)
    ensures ParseHeader(Render(h) + rest) == Some((h, rest))
  {
    var tail := RenderTail(h) + rest;
    assert Render(h) + rest == RenderHead(h) + tail;
    if h.gap3 == [] {
      assert tail[0] == '(';
    } else {
      assert tail[0] == h.gap3[0] && IsSpace(tail[0]);
    }
    ParseHeadRender(h, tail);
    ParseTailRender(h, rest);
  }

  /** First replacement: drops a matched header, or leaves `s` as it is. */
  function StripHeader(s: string): (r: string)
    ensures |r| <= |s| && r == s[|s| - |r|..]
  {
    match ParseHeader(s)
    case Some((h, rest)) => rest
    case None => s
  }

  /** Second replacement: `}$` without the `m` flag matches only a brace
      that is the very last character. */
  function StripBrace(s: string): (r: string)
    ensures r == s || s == r + "}"
  {
    if s != [] && s[|s| - 1] == '}' then s[..|s| - 1] else s
  }

  /** The body handed to `new AsyncFunction("ctx", body)`: a contiguous piece
      of the test's text. */
  function ExtractBody(code: string): (body: string)
    ensures |body| <= |code|
    ensures exists i {:trigger code[i..]} :: 0 <= i <= |code| && body <= code[i..]
  {
    var front := StripHeader(code);
    var i := |code| - |front|;
    assert front == code[i..];
    StripBrace(front)
  }

  /** A header that fits the whole pattern is removed, and nothing else is. */
  lemma {:induction false} StripsWrappedHeader(h: Header, rest: string)
    requires WellFormed(h)
    ensures StripHeader(Render(h) + rest) == rest
  {
    ParseRender(h, rest);
  }

  /** A text that does not begin with the full pattern keeps its front. */
  lemma KeepsUnwrappedFront(s: string)
    requires forall h :: WellFormed(h) ==> !(Render(h) <= s)
    ensures StripHeader(s) == s
  {
  }

  /** The brace replacement removes exactly one brace when the text ends
      with one, and nothing when it ends with anything else, such as a
      newline after the brace. */
  lemma {:induction false} StripBraceLast(s: string, c: char)
    ensures StripBrace(s + "}") == s
    ensures c != '}' ==> StripBrace(s + [c]) == s + [c]
  {
    assert (s + "}")[..|s|] == s;
  }

  /** A wrapped function gives back exactly its body. */
  lemma {:induction false} ExtractWrapped(h: Header, body: string)
    requires WellFormed(h)
    ensures ExtractBody(Render(h) + body + "}") == body
  {
    var code := Render(h) + body + "}";
    Associative(Render(h), body, "}");
    StripsWrappedHeader(h, body + "}");
    assert StripHeader(code) == body + "}";
    StripBraceLast(body, '}');
    assert ExtractBody(code) == StripBrace(body + "}");
  }

  /** The two replacements are independent: a bare statement sequence that
      ends in a brace still loses that brace. */
  lemma {:induction false} ExtractBare(stmts: string)
    requires forall h :: WellFormed(h) ==> !(Render(h) <= stmts + "}")
    ensures ExtractBody(stmts + "}") == stmts
  {
    KeepsUnwrappedFront(stmts + "}");
    StripBraceLast(stmts, '}');
  }
}

/**
 What the scan finds, said without the scan: a template is a string of lexical elements in
 exactly one way, if at all, and its segments are what stands between the question marks among them.
 */
module Lexing {
  import opened Wire
  import opened Scanner

  /** A placeholder, a quoted text, a comment, or any other character. */
  datatype Element =
    | Mark
    | Plain(c: char)
    | QuotedText(quote: char, body: string)
    | LineText(opener: string, body: string, ending: string)
    | BlockText(body: string)

  function Text(e: Element): string {
    match e
    case Mark => "?"
    case Plain(c) => [c]
    case QuotedText(quote, body) => [quote] + (body + [quote])
    case LineText(opener, body, ending) => opener + (body + ending)
    case BlockText(body) => "/*" + (body + "*/")
  }

  /** Inside a quote the quote itself stands doubled, and no backslash does. */
  predicate IsQuoteBody(body: string, quote: char) {
    if body == "" then true
    else if body[0] == '\\' then false
    else if body[0] != quote then IsQuoteBody(body[1..], quote)
    else |body| > 1 && body[1] == quote && IsQuoteBody(body[2..], quote)
  }

  predicate IsNewline(c: char) {
    c == '\n' || c == '\r'
  }

  predicate IsOneLine(body: string) {
    forall i :: 0 <= i < |body| ==> !IsNewline(body[i])
  }

  /** The first closer after the body is the one that follows it. */
  predicate IsBlockBody(body: string) {
    var closed := body + "*/";
    forall i :: 0 <= i < |body| ==> !(closed[i] == '*' && closed[i + 1] == '/')
  }

  predicate StartsWith(t: string, c: char) {
    t != "" && t[0] == c
  }

  /** An element in front of that text. */
  predicate IsElement(e: Element, rest: string) {
    match e
    case Mark => true
    case Plain(c) =>
      c != '?' && !IsQuote(c) && c != '#' && !OpensLineComment([c] + rest) && !OpensBlockComment([c] + rest)
    case QuotedText(quote, body) => IsQuote(quote) && IsQuoteBody(body, quote) && !StartsWith(rest, quote)
    case LineText(opener, body, ending) =>
      && (opener == "#" || (opener == "--" && OpensLineComment("--" + (body + (ending + rest)))))
      && IsOneLine(body)
      && if rest == "" then ending == "" || ending == "\n" || ending == "\r" else ending == "\n" || ending == "\r"
    case BlockText(body) => IsBlockBody(body) && !IsExecutableComment("/*" + (body + "*/"))
  }

  /** The elements make up the text, each in front of what is left. */
  predicate IsLexed(elements: seq<Element>, t: string) {
    if elements == [] then t == ""
    else
      var text := Text(elements[0]);
      |text| <= |t| && t[..|text|] == text && IsElement(elements[0], t[|text|..]) && IsLexed(elements[1..], t[|text|..])
  }

  /** What stands before, between and behind the question marks. */
  function Between(elements: seq<Element>): (segments: seq<string>)
    ensures segments != []
  {
    if elements == [] then [""]
    else
      var others := Between(elements[1..]);
      if elements[0].Mark? then [""] + others else [Text(elements[0]) + others[0]] + others[1..]
  }

  // ---------------------------------------------------------------------------
  // The scan follows the elements
  // ---------------------------------------------------------------------------

  function InFront(prefix: string, segments: Option<seq<string>>): Option<seq<string>>
    requires segments.Some? ==> segments.value != []
  {
    if segments.None? then None else Some([prefix + segments.value[0]] + segments.value[1..])
  }

  lemma InFrontTwice(a: string, b: string, segments: Option<seq<string>>)
    requires segments.Some? ==> segments.value != []
    ensures InFront(a, InFront(b, segments)) == InFront(a + b, segments)
    ensures InFront("", segments) == segments
  {
    if segments.Some? {
      Assoc(a, b, segments.value[0]);
      assert "" + segments.value[0] == segments.value[0];
      assert [segments.value[0]] + segments.value[1..] == segments.value;
    }
  }

  /** One copying move. */
  lemma Copied(head: string, tail: string, mode: Mode, next: Mode)
    requires head != "" && Next(head + tail, mode) == Copy(|head|, next)
    ensures Segments(head + tail, mode) == InFront(head, Segments(tail, next))
  {
    assert (head + tail)[..|head|] == head && (head + tail)[|head|..] == tail;
  }

  lemma Join3(a: string, b: string, c: string)
    ensures (a + b) + c == a + (b + c)
  {
  }

  lemma {:induction false} QuoteIsScanned(body: string, quote: char, rest: string)
    requires IsQuote(quote) && IsQuoteBody(body, quote) && !StartsWith(rest, quote)
    ensures Segments(body + ([quote] + rest), Quoted(quote)) == InFront(body + [quote], Segments(rest, Sql))
    decreases |body|
  {
    if body == "" {
      assert body + ([quote] + rest) == [quote] + rest && body + [quote] == [quote];
      assert ([quote] + rest)[1..] == rest;
      Copied([quote], rest, Quoted(quote), Sql);
    } else {
      var n := if body[0] == quote then 2 else 1;
      var head, tail := body[..n], body[n..];
      var left := tail + ([quote] + rest);
      TakeDrop(body, n);
      Join3(head, tail, [quote] + rest);
      Join3(head, tail, [quote]);
      assert (head + left)[0] == body[0] && (n == 2 ==> (head + left)[1] == body[1]);
      Copied(head, left, Quoted(quote), Quoted(quote));
      QuoteIsScanned(tail, quote, rest);
      InFrontTwice(head, tail + [quote], Segments(rest, Sql));
    }
  }

  lemma {:induction false} LineIsScanned(body: string, ending: string, rest: string)
    requires IsOneLine(body) && (ending == "\n" || ending == "\r" || (ending == "" && rest == ""))
    ensures Segments(body + (ending + rest), LineComment) == InFront(body + ending, Segments(rest, Sql))
    decreases |body|
  {
    if body == "" {
      assert body + (ending + rest) == ending + rest && body + ending == ending;
      if ending == "" {
        InFrontTwice("", "", Segments(rest, Sql));
        assert ending + rest == "";
      } else {
        assert (ending + rest)[0] == ending[0];
        Copied(ending, rest, LineComment, Sql);
      }
    } else {
      var head, tail := body[..1], body[1..];
      var left := tail + (ending + rest);
      TakeDrop(body, 1);
      Join3(head, tail, ending + rest);
      Join3(head, tail, ending);
      assert (head + left)[0] == body[0] && !IsNewline(body[0]);
      assert forall i :: 0 <= i < |tail| ==> tail[i] == body[i + 1];
      Copied(head, left, LineComment, LineComment);
      LineIsScanned(tail, ending, rest);
      InFrontTwice(head, tail + ending, Segments(rest, Sql));
    }
  }

  lemma BlockTail(body: string)
    requires body != "" && IsBlockBody(body)
    ensures IsBlockBody(body[1..])
    ensures var closed := body + "*/"; !(closed[0] == '*' && closed[1] == '/')
  {
    var closed, tail := body + "*/", body[1..] + "*/";
    assert forall i :: 0 <= i < |tail| ==> tail[i] == closed[i + 1];
  }

  lemma {:induction false} BlockIsScanned(body: string, rest: string)
    requires IsBlockBody(body)
    ensures Segments(body + ("*/" + rest), BlockComment) == InFront(body + "*/", Segments(rest, Sql))
    decreases |body|
  {
    if body == "" {
      assert body + ("*/" + rest) == "*/" + rest && body + "*/" == "*/";
      Copied("*/", rest, BlockComment, Sql);
    } else {
      var head, tail := body[..1], body[1..];
      var left := tail + ("*/" + rest);
      BlockTail(body);
      TakeDrop(body, 1);
      Join3(head, tail, "*/" + rest);
      Join3(head, tail, "*/");
      assert (head + left)[0] == (body + "*/")[0] && (head + left)[1] == (body + "*/")[1];
      Copied(head, left, BlockComment, BlockComment);
      BlockIsScanned(tail, rest);
      InFrontTwice(head, tail + "*/", Segments(rest, Sql));
    }
  }

  lemma QuotedTextIsScanned(quote: char, body: string, rest: string)
    requires IsElement(QuotedText(quote, body), rest)
    ensures Segments(Text(QuotedText(quote, body)) + rest, Sql)
         == InFront(Text(QuotedText(quote, body)), Segments(rest, Sql))
  {
    var left := body + ([quote] + rest);
    Join3([quote], body + [quote], rest);
    Join3(body, [quote], rest);
    Copied([quote], left, Sql, Quoted(quote));
    QuoteIsScanned(body, quote, rest);
    InFrontTwice([quote], body + [quote], Segments(rest, Sql));
  }

  lemma LineTextIsScanned(opener: string, body: string, ending: string, rest: string)
    requires IsElement(LineText(opener, body, ending), rest)
    ensures Segments(Text(LineText(opener, body, ending)) + rest, Sql)
         == InFront(Text(LineText(opener, body, ending)), Segments(rest, Sql))
  {
    var left := body + (ending + rest);
    Join3(opener, body + ending, rest);
    Join3(body, ending, rest);
    assert (opener + left)[0] == opener[0];
    Copied(opener, left, Sql, LineComment);
    LineIsScanned(body, ending, rest);
    InFrontTwice(opener, body + ending, Segments(rest, Sql));
  }

  lemma ExecutableIsInside(body: string, rest: string)
    ensures IsExecutableComment("/*" + (body + ("*/" + rest))) == IsExecutableComment("/*" + (body + "*/"))
  {
    var short, long := "/*" + (body + "*/"), "/*" + (body + ("*/" + rest));
    assert forall i :: 0 <= i < |short| ==> long[i] == short[i];
  }

  lemma BlockTextIsScanned(body: string, rest: string)
    requires IsElement(BlockText(body), rest)
    ensures Segments(Text(BlockText(body)) + rest, Sql) == InFront(Text(BlockText(body)), Segments(rest, Sql))
  {
    var left := body + ("*/" + rest);
    Join3("/*", body + "*/", rest);
    Join3(body, "*/", rest);
    ExecutableIsInside(body, rest);
    Copied("/*", left, Sql, BlockComment);
    BlockIsScanned(body, rest);
    InFrontTwice("/*", body + "*/", Segments(rest, Sql));
  }

  lemma ElementIsScanned(e: Element, rest: string)
    requires IsElement(e, rest)
    ensures Segments(Text(e) + rest, Sql)
         == if e.Mark? then (if Segments(rest, Sql).None? then None else Some([""] + Segments(rest, Sql).value))
            else InFront(Text(e), Segments(rest, Sql))
  {
    match e {
      case Mark => assert ("?" + rest)[1..] == rest;
      case Plain(c) => Copied([c], rest, Sql, Sql);
      case QuotedText(quote, body) => QuotedTextIsScanned(quote, body, rest);
      case LineText(opener, body, ending) => LineTextIsScanned(opener, body, ending, rest);
      case BlockText(body) => BlockTextIsScanned(body, rest);
    }
  }

  /** Whatever way a text is made of elements, the scan cuts it at their question marks. */
  lemma {:induction false} LexedIsSegmented(elements: seq<Element>, t: string)
    requires IsLexed(elements, t)
    ensures Segments(t, Sql) == Some(Between(elements))
    decreases |elements|
  {
    if elements != [] {
      var text := Text(elements[0]);
      TakeDrop(t, |text|);
      LexedIsSegmented(elements[1..], t[|text|..]);
      ElementIsScanned(elements[0], t[|text|..]);
    }
  }

  // ---------------------------------------------------------------------------
  // What the scan accepts is made of elements
  // ---------------------------------------------------------------------------

  lemma {:induction false} QuoteEnds(t: string, quote: char) returns (body: string, rest: string)
    requires Segments(t, Quoted(quote)).Some?
    ensures t == body + ([quote] + rest) && IsQuoteBody(body, quote) && !StartsWith(rest, quote)
    decreases |t|
  {
    if t[0] != quote {
      body, rest := QuoteEnds(t[1..], quote);
      body := t[..1] + body;
      assert body[1..] == t[1..][..|body| - 1];
    } else if |t| > 1 && t[1] == quote {
      body, rest := QuoteEnds(t[2..], quote);
      body := t[..2] + body;
      assert body[2..] == t[2..][..|body| - 2];
    } else {
      body, rest := "", t[1..];
    }
  }

  lemma {:induction false} LineEnds(t: string) returns (body: string, ending: string, rest: string)
    ensures t == body + (ending + rest) && IsOneLine(body)
    ensures ending == "\n" || ending == "\r" || (ending == "" && rest == "")
    decreases |t|
  {
    if t == "" {
      body, ending, rest := "", "", "";
    } else if IsNewline(t[0]) {
      body, ending, rest := "", [t[0]], t[1..];
    } else {
      body, ending, rest := LineEnds(t[1..]);
      body := [t[0]] + body;
    }
  }

  lemma LongerBlock(c: char, body: string)
    requires IsBlockBody(body) && !(c == '*' && (body + "*/")[0] == '/')
    ensures IsBlockBody([c] + body)
  {
    var closed, tail := ([c] + body) + "*/", body + "*/";
    assert forall i :: 0 < i < |closed| ==> closed[i] == tail[i - 1];
  }

  lemma {:induction false} BlockEnds(t: string) returns (body: string, rest: string)
    requires Segments(t, BlockComment).Some?
    ensures t == body + ("*/" + rest) && IsBlockBody(body)
    decreases |t|
  {
    if |t| > 1 && t[0] == '*' && t[1] == '/' {
      body, rest := "", t[2..];
    } else {
      body, rest := BlockEnds(t[1..]);
      assert (body + "*/")[0] == t[1..][0];
      LongerBlock(t[0], body);
      body := [t[0]] + body;
    }
  }

  lemma FirstQuoted(t: string) returns (e: Element, rest: string)
    requires t != "" && IsQuote(t[0]) && Segments(t, Sql).Some?
    ensures t == Text(e) + rest && IsElement(e, rest)
  {
    var body;
    body, rest := QuoteEnds(t[1..], t[0]);
    e := QuotedText(t[0], body);
    Join3([t[0]], body + [t[0]], rest);
    Join3(body, [t[0]], rest);
    DropOne(t, 0);
  }

  lemma FirstLine(t: string) returns (e: Element, rest: string)
    requires StartsWith(t, '#') || OpensLineComment(t)
    ensures t == Text(e) + rest && IsElement(e, rest)
  {
    var n := if t[0] == '#' then 1 else 2;
    var body, ending;
    body, ending, rest := LineEnds(t[n..]);
    e := LineText(t[..n], body, ending);
    Join3(t[..n], body + ending, rest);
    Join3(body, ending, rest);
    TakeDrop(t, n);
  }

  lemma FirstBlock(t: string) returns (e: Element, rest: string)
    requires OpensBlockComment(t) && !IsExecutableComment(t) && Segments(t, Sql).Some?
    ensures t == Text(e) + rest && IsElement(e, rest)
  {
    var body;
    body, rest := BlockEnds(t[2..]);
    e := BlockText(body);
    Join3("/*", body + "*/", rest);
    Join3(body, "*/", rest);
    ExecutableIsInside(body, rest);
    TakeDrop(t, 2);
  }

  lemma FirstElement(t: string) returns (e: Element, rest: string)
    requires t != "" && Segments(t, Sql).Some?
    ensures t == Text(e) + rest && IsElement(e, rest) && Segments(rest, Sql).Some?
  {
    if IsQuote(t[0]) {
      e, rest := FirstQuoted(t);
    } else if t[0] == '#' || OpensLineComment(t) {
      e, rest := FirstLine(t);
    } else if OpensBlockComment(t) {
      e, rest := FirstBlock(t);
    } else {
      e, rest := if t[0] == '?' then Mark else Plain(t[0]), t[1..];
      DropOne(t, 0);
    }
    ElementIsScanned(e, rest);
  }

  lemma {:induction false} SegmentedIsLexed(t: string) returns (elements: seq<Element>)
    requires Segments(t, Sql).Some?
    ensures IsLexed(elements, t)
    decreases |t|
  {
    if t == "" {
      elements := [];
    } else {
      var e, rest := FirstElement(t);
      var others := SegmentedIsLexed(rest);
      elements := [e] + others;
      assert elements[1..] == others && t[|Text(e)|..] == rest && t[..|Text(e)|] == Text(e);
    }
  }

  // ---------------------------------------------------------------------------
  // In one way only
  // ---------------------------------------------------------------------------

  lemma TailsAgree(a: string, x: string, b: string, y: string, n: nat)
    requires a + x == b + y && n <= |a| && n <= |b|
    ensures a[..n] == b[..n] && a[n..] + x == b[n..] + y
  {
    assert a[..n] == (a + x)[..n] && b[..n] == (b + y)[..n];
    assert a[n..] + x == (a + x)[n..] && b[n..] + y == (b + y)[n..];
  }

  /** The closing quote is the first one that is not doubled. */
  lemma HeadOfQuote(body: string, rest: string, quote: char)
    requires IsQuoteBody(body, quote) && !StartsWith(rest, quote)
    ensures var t := body + ([quote] + rest);
      t != "" && (body == "" <==> t[0] == quote && !StartsWith(t[1..], quote)) && (body != "" ==> t[0] == body[0])
  {
    var t := body + ([quote] + rest);
    if body == "" {
      assert t[1..] == rest;
    } else {
      assert t[0] == body[0];
      if body[0] == quote {
        assert t[1..][0] == body[1];
      }
    }
  }

  lemma {:induction false} QuoteBodyIsUnique(a: string, x: string, b: string, y: string, quote: char)
    requires IsQuoteBody(a, quote) && !StartsWith(x, quote) && IsQuoteBody(b, quote) && !StartsWith(y, quote)
    requires a + ([quote] + x) == b + ([quote] + y)
    ensures a == b
    decreases |a| + |b|
  {
    HeadOfQuote(a, x, quote);
    HeadOfQuote(b, y, quote);
    if a != "" && b != "" {
      var n := if a[0] == quote then 2 else 1;
      TailsAgree(a, [quote] + x, b, [quote] + y, n);
      QuoteBodyIsUnique(a[n..], x, b[n..], y, quote);
      TakeDrop(a, n);
      TakeDrop(b, n);
    }
  }

  predicate IsEnding(ending: string, rest: string) {
    ending == "\n" || ending == "\r" || (ending == "" && rest == "")
  }

  lemma HeadOfLine(body: string, ending: string, rest: string)
    requires IsOneLine(body) && IsEnding(ending, rest)
    ensures var t := body + (ending + rest);
      && (body != "" <==> t != "" && !IsNewline(t[0]))
      && (body == "" ==> ending == if t == "" then "" else [t[0]])
  {
    var t := body + (ending + rest);
    if body != "" {
      assert t[0] == body[0];
    } else if ending != "" {
      assert t[0] == ending[0];
    }
  }

  lemma {:induction false} LineIsUnique(a: string, d: string, x: string, b: string, e: string, y: string)
    requires IsOneLine(a) && IsEnding(d, x) && IsOneLine(b) && IsEnding(e, y)
    requires a + (d + x) == b + (e + y)
    ensures a == b && d == e
    decreases |a|
  {
    HeadOfLine(a, d, x);
    HeadOfLine(b, e, y);
    if a != "" && b != "" {
      TailsAgree(a, d + x, b, e + y, 1);
      assert forall i :: 0 <= i < |a[1..]| ==> a[1..][i] == a[i + 1];
      assert forall i :: 0 <= i < |b[1..]| ==> b[1..][i] == b[i + 1];
      LineIsUnique(a[1..], d, x, b[1..], e, y);
      TakeDrop(a, 1);
      TakeDrop(b, 1);
    }
  }

  lemma ShorterBlock(a: string, x: string, b: string, y: string)
    requires IsBlockBody(b) && a + ("*/" + x) == b + ("*/" + y)
    ensures |a| >= |b|
  {
    ClosesAtEnd(a, x);
    ClosesAtEnd(b, y);
  }

  lemma ClosesAtEnd(body: string, rest: string)
    ensures var t := body + ("*/" + rest); t[|body|] == '*' && t[|body| + 1] == '/'
    ensures var t := body + ("*/" + rest);
      IsBlockBody(body) ==> forall i :: 0 <= i < |body| ==> !(t[i] == '*' && t[i + 1] == '/')
  {
    var t, closed := body + ("*/" + rest), body + "*/";
    assert forall i :: 0 <= i < |closed| ==> closed[i] == t[i];
  }

  lemma BlockIsUnique(a: string, x: string, b: string, y: string)
    requires IsBlockBody(a) && IsBlockBody(b) && a + ("*/" + x) == b + ("*/" + y)
    ensures a == b
  {
    ShorterBlock(a, x, b, y);
    ShorterBlock(b, y, a, x);
    TailsAgree(a, "*/" + x, b, "*/" + y, |a|);
  }

  /** The first characters of a text tell what kind of element stands there. */
  lemma KindIsUnique(e: Element, x: string, f: Element, y: string)
    requires IsElement(e, x) && IsElement(f, y) && Text(e) + x == Text(f) + y
    ensures e.Mark? == f.Mark? && e.Plain? == f.Plain? && e.QuotedText? == f.QuotedText?
    ensures e.LineText? == f.LineText? && e.BlockText? == f.BlockText?
    ensures (Text(e) + x)[0] == Text(e)[0] == Text(f)[0]
  {
    var t := Text(e) + x;
    assert t[0] == Text(e)[0] && t[0] == Text(f)[0];
    OpenersAreSeen(e, x);
    OpenersAreSeen(f, y);
  }

  lemma OpenersAreSeen(e: Element, x: string)
    requires IsElement(e, x)
    ensures var t := Text(e) + x;
      && (e.LineText? <==> t[0] == '#' || OpensLineComment(t))
      && (e.BlockText? <==> OpensBlockComment(t))
  {
    match e {
      case LineText(opener, body, ending) =>
        Join3(opener, body + ending, x);
        Join3(body, ending, x);
      case BlockText(body) => Join3("/*", body + "*/", x);
      case QuotedText(quote, body) => Join3([quote], body + [quote], x);
      case _ =>
    }
  }

  lemma LineTextIsUnique(e: Element, x: string, f: Element, y: string)
    requires e.LineText? && f.LineText? && IsElement(e, x) && IsElement(f, y) && Text(e) + x == Text(f) + y
    ensures e == f
  {
    var n := |e.opener|;
    Join3(e.opener, e.body + e.ending, x);
    Join3(f.opener, f.body + f.ending, y);
    Join3(e.body, e.ending, x);
    Join3(f.body, f.ending, y);
    var t := Text(e) + x;
    assert t[0] == e.opener[0] && t[0] == f.opener[0];
    TailsAgree(e.opener, e.body + (e.ending + x), f.opener, f.body + (f.ending + y), n);
    assert e.opener[n..] == "" && f.opener[n..] == "";
    assert "" + (e.body + (e.ending + x)) == e.body + (e.ending + x)
      && "" + (f.body + (f.ending + y)) == f.body + (f.ending + y);
    LineIsUnique(e.body, e.ending, x, f.body, f.ending, y);
  }

  lemma QuotedTextIsUnique(e: Element, x: string, f: Element, y: string)
    requires e.QuotedText? && f.QuotedText? && e.quote == f.quote
    requires IsElement(e, x) && IsElement(f, y) && Text(e) + x == Text(f) + y
    ensures e == f
  {
    var q := [e.quote];
    Join3(q, e.body + q, x);
    Join3(q, f.body + q, y);
    Join3(e.body, q, x);
    Join3(f.body, q, y);
    assert (q + (e.body + (q + x)))[1..] == e.body + (q + x) && (q + (f.body + (q + y)))[1..] == f.body + (q + y);
    QuoteBodyIsUnique(e.body, x, f.body, y, e.quote);
  }

  lemma BlockTextIsUnique(e: Element, x: string, f: Element, y: string)
    requires e.BlockText? && f.BlockText? && IsElement(e, x) && IsElement(f, y) && Text(e) + x == Text(f) + y
    ensures e == f
  {
    Join3("/*", e.body + "*/", x);
    Join3("/*", f.body + "*/", y);
    Join3(e.body, "*/", x);
    Join3(f.body, "*/", y);
    assert ("/*" + (e.body + ("*/" + x)))[2..] == e.body + ("*/" + x)
      && ("/*" + (f.body + ("*/" + y)))[2..] == f.body + ("*/" + y);
    BlockIsUnique(e.body, x, f.body, y);
  }

  lemma ElementIsUnique(e: Element, x: string, f: Element, y: string)
    requires IsElement(e, x) && IsElement(f, y) && Text(e) + x == Text(f) + y
    ensures e == f
  {
    KindIsUnique(e, x, f, y);
    if e.QuotedText? {
      QuotedTextIsUnique(e, x, f, y);
    } else if e.LineText? {
      LineTextIsUnique(e, x, f, y);
    } else if e.BlockText? {
      BlockTextIsUnique(e, x, f, y);
    }
  }

  /** No text is made of elements in two ways. */
  lemma {:induction false} LexingIsUnique(a: seq<Element>, b: seq<Element>, t: string)
    requires IsLexed(a, t) && IsLexed(b, t)
    ensures a == b
    decreases |t|
  {
    if t == "" {
      assert a == [] && b == [];
    } else {
      TakeDrop(t, |Text(a[0])|);
      TakeDrop(t, |Text(b[0])|);
      ElementIsUnique(a[0], t[|Text(a[0])|..], b[0], t[|Text(b[0])|..]);
      LexingIsUnique(a[1..], b[1..], t[|Text(a[0])|..]);
      DropOne(a, 0);
      DropOne(b, 0);
    }
  }

  /**
   The scan accepts a template exactly when it is a string of lexical elements; that string is
   unique, and the segments are exactly what stands between the question marks outside quotes
   and comments.
   */
  lemma ScanIsLexing(t: string, segments: seq<string>)
    ensures Segments(t, Sql) == Some(segments)
         <==> exists elements :: IsLexed(elements, t) && Between(elements) == segments
    ensures forall a, b :: IsLexed(a, t) && IsLexed(b, t) ==> a == b
  {
    if Segments(t, Sql) == Some(segments) {
      var elements := SegmentedIsLexed(t);
      LexedIsSegmented(elements, t);
    }
    forall elements | IsLexed(elements, t)
      ensures Segments(t, Sql) == Some(Between(elements))
    {
      LexedIsSegmented(elements, t);
    }
    forall a, b | IsLexed(a, t) && IsLexed(b, t)
      ensures a == b
    {
      LexingIsUnique(a, b, t);
    }
  }
}

/**
 Substitution of decoded parameters into a prepared statement, and what the
 result means: a lexical scan finds the real placeholders of a template, and the
 literals put there change nothing the scan would find.
 */
module Scanner {
  import opened Wire

  /** Where the scan stands: plain SQL, inside a quote, or inside a comment. */
  datatype Mode = Sql | Quoted(quote: char) | LineComment | BlockComment

  /** What the scan does with the text in front of it. */
  datatype Move = Reject | Placeholder | Copy(n: nat, mode: Mode)

  /** The characters Python's str.isspace accepts. */
  predicate IsSpace(c: char) {
    var u := c as int;
    || 0x09 <= u <= 0x0D || 0x1C <= u <= 0x20 || u == 0x85 || u == 0xA0 || u == 0x1680
    || 0x2000 <= u <= 0x200A || u == 0x2028 || u == 0x2029 || u == 0x202F || u == 0x205F
    || u == 0x3000
  }

  predicate IsQuote(c: char) {
    c == '\'' || c == '"' || c == '`'
  }

  predicate OpensLineComment(t: string) {
    |t| >= 2 && t[0] == '-' && t[1] == '-' && (|t| == 2 || IsSpace(t[2]))
  }

  predicate OpensBlockComment(t: string) {
    |t| >= 2 && t[0] == '/' && t[1] == '*'
  }

  /** Comments whose text MySQL or MariaDB would execute. */
  predicate IsExecutableComment(t: string)
    requires OpensBlockComment(t)
  {
    || (|t| > 2 && t[2] == '!')
    || (|t| > 3 && (t[2] == 'm' || t[2] == 'M') && t[3] == '!')
  }

  function Next(t: string, mode: Mode): (move: Move)
    requires t != []
    ensures move.Copy? ==> 1 <= move.n <= |t|
  {
    var c := t[0];
    match mode
    case Sql =>
      if c == '?' then Placeholder
      else if IsQuote(c) then Copy(1, Quoted(c))
      else if c == '#' then Copy(1, LineComment)
      else if OpensLineComment(t) then Copy(2, LineComment)
      else if OpensBlockComment(t) then
        if IsExecutableComment(t) then Reject else Copy(2, BlockComment)
      else Copy(1, Sql)
    case Quoted(q) =>
      if c == '\\' then Reject
      else if c != q then Copy(1, mode)
      else if |t| > 1 && t[1] == q then Copy(2, mode)
      else Copy(1, Sql)
    case LineComment =>
      Copy(1, if c == '\n' || c == '\r' then Sql else LineComment)
    case BlockComment =>
      if |t| > 1 && c == '*' && t[1] == '/' then Copy(2, Sql) else Copy(1, BlockComment)
  }

  predicate MayEnd(mode: Mode) {
    mode.Sql? || mode.LineComment?
  }

  /** The pieces of text between the real placeholders, or None when the scan rejects. */
  function Segments(t: string, mode: Mode): (r: Option<seq<string>>)
    ensures r.Some? ==> |r.value| >= 1
    decreases |t|
  {
    if t == [] then
      if MayEnd(mode) then Some([""]) else None
    else
      match Next(t, mode)
      case Reject => None
      case Placeholder =>
        var rest := Segments(t[1..], Sql);
        if rest.None? then None else Some([""] + rest.value)
      case Copy(n, next) =>
        var rest := Segments(t[n..], next);
        if rest.None? then None else Some([t[..n] + rest.value[0]] + rest.value[1..])
  }

  /** segments[0] + literals[0] + segments[1] + ... */
  function Interleave(segments: seq<string>, literals: seq<string>): string
    requires |segments| == |literals| + 1
  {
    if literals == [] then segments[0]
    else segments[0] + literals[0] + Interleave(segments[1..], literals[1..])
  }

  /** The template with its placeholders replaced in order, when their number fits. */
  function Fill(t: string, mode: Mode, literals: seq<string>): Option<string> {
    var segments := Segments(t, mode);
    if segments.None? || |segments.value| != |literals| + 1 then None
    else Some(Interleave(segments.value, literals))
  }

  function Prefixed(prefix: string, rest: Option<string>): Option<string> {
    if rest.None? then None else Some(prefix + rest.value)
  }

  lemma PrefixedTwice(a: string, b: string, rest: Option<string>)
    ensures Prefixed(a, Prefixed(b, rest)) == Prefixed(a + b, rest)
  {
    if rest.Some? {
      assert a + (b + rest.value) == (a + b) + rest.value;
    }
  }

  lemma PrefixedNothing(rest: Option<string>)
    ensures Prefixed("", rest) == rest
  {
    if rest.Some? {
      assert "" + rest.value == rest.value;
    }
  }

  function Marks(n: nat): (marks: seq<string>)
    ensures |marks| == n
  {
    if n == 0 then [] else ["?"] + Marks(n - 1)
  }

  lemma MarkFirst(rest: seq<string>)
    requires rest != []
    ensures Interleave([""] + rest, Marks(|rest|)) == "?" + Interleave(rest, Marks(|rest| - 1))
  {
    var segments, marks := [""] + rest, Marks(|rest|);
    assert segments[1..] == rest && marks[1..] == Marks(|rest| - 1);
    assert "" + "?" == "?";
  }

  /** The template its segments came from. */
  function Rejoined(segments: seq<string>): string
    requires segments != []
  {
    Interleave(segments, Marks(|segments| - 1))
  }

  /** The segments joined by question marks are the template itself. */
  lemma {:induction false} SegmentsCoverTemplate(t: string, mode: Mode)
    requires Segments(t, mode).Some?
    ensures Rejoined(Segments(t, mode).value) == t
    decreases |t|
  {
    if t != [] {
      match Next(t, mode) {
        case Placeholder =>
          SegmentsCoverTemplate(t[1..], Sql);
          MarkIsCovered(t, mode);
        case Copy(n, next) =>
          SegmentsCoverTemplate(t[n..], next);
          CopyIsCovered(t, mode, n, next);
      }
    }
  }

  lemma MarkIsCovered(t: string, mode: Mode)
    requires t != [] && Next(t, mode).Placeholder? && Segments(t[1..], Sql).Some?
    requires Rejoined(Segments(t[1..], Sql).value) == t[1..]
    ensures Rejoined(Segments(t, mode).value) == t
  {
    MarkFirst(Segments(t[1..], Sql).value);
    TakeDrop(t, 1);
  }

  lemma CopyIsCovered(t: string, mode: Mode, n: nat, next: Mode)
    requires t != [] && Next(t, mode) == Copy(n, next) && Segments(t[n..], next).Some?
    requires Rejoined(Segments(t[n..], next).value) == t[n..]
    ensures Rejoined(Segments(t, mode).value) == t
  {
    var rest := Segments(t[n..], next).value;
    PrefixFirst(t[..n], rest, Marks(|rest| - 1));
    TakeDrop(t, n);
  }

  lemma PrefixFirst(prefix: string, segments: seq<string>, literals: seq<string>)
    requires |segments| == |literals| + 1
    ensures Interleave([prefix + segments[0]] + segments[1..], literals) == prefix + Interleave(segments, literals)
  {
    var joined := [prefix + segments[0]] + segments[1..];
    if literals != [] {
      assert joined[1..] == segments[1..];
      assert (prefix + segments[0]) + literals[0] + Interleave(segments[1..], literals[1..])
          == prefix + (segments[0] + literals[0] + Interleave(segments[1..], literals[1..]));
    }
  }

  /** One step of the scan, seen on the filled text. */
  lemma FillStep(t: string, mode: Mode, literals: seq<string>)
    requires t != []
    ensures var filled := Fill(t, mode, literals);
      match Next(t, mode)
      case Reject => filled.None?
      case Placeholder =>
        if literals == [] then filled.None?
        else filled == Prefixed(literals[0], Fill(t[1..], Sql, literals[1..]))
      case Copy(n, next) =>
        filled == Prefixed(t[..n], Fill(t[n..], next, literals))
  {
    match Next(t, mode) {
      case Reject =>
      case Placeholder =>
        var rest := Segments(t[1..], Sql);
        if rest.Some? && literals != [] {
          assert ([""] + rest.value)[1..] == rest.value;
          if |rest.value| == |literals| {
            assert "" + literals[0] + Interleave(rest.value, literals[1..])
              == literals[0] + Interleave(rest.value, literals[1..]);
          }
        }
      case Copy(n, next) =>
        var rest := Segments(t[n..], next);
        if rest.Some? && |rest.value| == |literals| + 1 {
          PrefixFirst(t[..n], rest.value, literals);
        }
    }
  }

  /**
   The rewriting loop. A literal is taken at each placeholder; the call is rejected
   when there are too few or too many of them or the scan itself rejects.
   */
  method ReconstructStmtExecuteSql(template: string, literals: seq<string>) returns (r: Option<string>)
    ensures r == Fill(template, Sql, literals)
  {
    var output: string := "";
    var index, replacements := 0, 0;
    var state := Sql;
    assert template[0..] == template && literals[0..] == literals;
    PrefixedNothing(Fill(template, Sql, literals));
    while index < |template|
      invariant 0 <= index <= |template| && 0 <= replacements <= |literals|
      invariant Fill(template, Sql, literals)
             == Prefixed(output, Fill(template[index..], state, literals[replacements..]))
    {
      var rest := template[index..];
      FillStep(rest, state, literals[replacements..]);
      ghost var was := output;
      ghost var left := literals[replacements..];
      match Next(rest, state) {
        case Reject =>
          return None;
        case Placeholder =>
          if replacements == |literals| {
            return None;
          }
          output := output + literals[replacements];
          assert left[1..] == literals[replacements + 1..] && rest[1..] == template[index + 1..];
          PrefixedTwice(was, left[0], Fill(rest[1..], Sql, left[1..]));
          index, replacements, state := index + 1, replacements + 1, Sql;
        case Copy(n, next) =>
          output := output + rest[..n];
          assert rest[n..] == template[index + n..];
          PrefixedTwice(was, rest[..n], Fill(rest[n..], next, left));
          index, state := index + n, next;
      }
    }
    assert template[index..] == [];
    if !MayEnd(state) || replacements < |literals| {
      return None;
    }
    assert literals[replacements..] == [] && Fill([], state, []) == Some("") && output + "" == output;
    return Some(output);
  }

  // ---------------------------------------------------------------------------
  // Literals
  // ---------------------------------------------------------------------------

  predicate IsDigit(c: char) {
    '0' <= c <= '9'
  }

  predicate IsHexDigit(c: char) {
    IsDigit(c) || 'a' <= c <= 'f'
  }

  /** Characters of integers, decimals and NULL. */
  predicate IsPlainChar(c: char) {
    IsDigit(c) || c == '-' || c == '+' || c == '.' || c == 'e' || c == 'N' || c == 'U' || c == 'L'
  }

  /** Text in which every minus sign is followed by a digit. */
  predicate IsPlain(s: string) {
    s == [] || (IsPlainChar(s[0]) && (s[0] == '-' ==> |s| > 1 && IsDigit(s[1])) && IsPlain(s[1..]))
  }

  /** A number as Python prints it: optional minus sign, digits, point, exponent. */
  predicate IsNumber(s: string) {
    s != [] && (IsDigit(s[0]) || s[0] == '-') && IsPlain(s)
  }

  predicate IsHexLiteral(s: string) {
    && |s| >= 3 && s[0] == 'X' && s[1] == '\'' && s[|s| - 1] == '\''
    && forall i :: 2 <= i < |s| - 1 ==> IsHexDigit(s[i])
  }

  /** The three shapes of text the parameter decoder produces. */
  predicate IsLiteral(s: string) {
    IsNumber(s) || s == "NULL" || IsHexLiteral(s)
  }

  // ---------------------------------------------------------------------------
  // Scanning the result again
  // ---------------------------------------------------------------------------

  /** The scan accepts the text and finds no placeholder in it. */
  predicate Stable(t: string, mode: Mode)
    decreases |t|
  {
    if t == [] then MayEnd(mode)
    else
      var move := Next(t, mode);
      move.Copy? && Stable(t[move.n..], move.mode)
  }

  lemma {:induction false} StableIsOneSegment(t: string, mode: Mode)
    requires Stable(t, mode)
    ensures Segments(t, mode) == Some([t])
    decreases |t|
  {
    if t == [] {
      assert t == "";
    } else {
      var move := Next(t, mode);
      StableIsOneSegment(t[move.n..], move.mode);
      assert t[..move.n] + t[move.n..] == t && [t] + [t[move.n..]][1..] == [t];
    }
  }

  /** A filled text begins like its template, or with a literal where the template has a placeholder. */
  predicate Fits(c: char, out: string) {
    out != [] && (out[0] == c || (c == '?' && LiteralHead(out)))
  }

  predicate LiteralHead(out: string)
    requires out != []
  {
    IsDigit(out[0]) || out[0] == 'N' || out[0] == 'X' || (out[0] == '-' && |out| > 1 && IsDigit(out[1]))
  }

  predicate AllLiterals(literals: seq<string>) {
    forall i :: 0 <= i < |literals| ==> IsLiteral(literals[i])
  }

  lemma FilledHead(t: string, mode: Mode, literals: seq<string>)
    requires AllLiterals(literals) && Fill(t, mode, literals).Some?
    ensures var out := Fill(t, mode, literals).value;
      if t == [] then out == [] else Fits(t[0], out) && (!mode.Sql? ==> out[0] == t[0])
  {
    if t == [] {
      assert Segments(t, mode) == Some([""]);
    } else {
      FillStep(t, mode, literals);
      var out := Fill(t, mode, literals).value;
      var move := Next(t, mode);
      if move.Placeholder? {
        var l := literals[0];
        assert IsLiteral(l) && l <= out;
        assert IsNumber(l) && l[0] == '-' ==> out[1] == l[1];
      } else {
        assert t[..move.n] <= out && t[..move.n][0] == t[0];
      }
    }
  }

  /** The second character, when the first one is copied on its own or with it. */
  lemma FilledSecond(t: string, mode: Mode, literals: seq<string>)
    requires AllLiterals(literals) && Fill(t, mode, literals).Some?
    requires t != [] && Next(t, mode).Copy?
    ensures var out := Fill(t, mode, literals).value;
      out != [] && out[0] == t[0] && if |t| == 1 then |out| == 1 else Fits(t[1], out[1..])
  {
    FillStep(t, mode, literals);
    var out := Fill(t, mode, literals).value;
    var move := Next(t, mode);
    var rest := Fill(t[move.n..], move.mode, literals).value;
    FilledHead(t[move.n..], move.mode, literals);
    if move.n == 1 {
      assert out[1..] == rest;
    } else {
      assert move.n == 2 && out[1] == t[1];
    }
  }

  /** The modes a scan starting in plain SQL can be in. */
  predicate IsScanMode(mode: Mode) {
    mode.Quoted? ==> IsQuote(mode.quote)
  }

  /** What has been copied so far, and what is still to be scanned. */
  lemma FilledMove(t: string, mode: Mode, literals: seq<string>)
    requires AllLiterals(literals) && Fill(t, mode, literals).Some?
    requires t != [] && Next(t, mode).Copy?
    ensures var out, move := Fill(t, mode, literals).value, Next(t, mode);
      var rest := Fill(t[move.n..], move.mode, literals);
      && rest.Some? && move.n <= |out| && out[..move.n] == t[..move.n] && out[move.n..] == rest.value
  {
    var move := Next(t, mode);
    FillStep(t, mode, literals);
    assert Fill(t, mode, literals) == Prefixed(t[..move.n], Fill(t[move.n..], move.mode, literals));
  }

  /**
   In plain SQL up to three characters ahead decide the step; the filled text has the same, or ones that decide
   alike.
   */
  lemma SameSqlMove(t: string, literals: seq<string>)
    requires AllLiterals(literals) && Fill(t, Sql, literals).Some?
    requires t != [] && Next(t, Sql).Copy?
    ensures var out := Fill(t, Sql, literals).value;
      out != [] && Next(out, Sql) == Next(t, Sql)
  {
    var out, move := Fill(t, Sql, literals).value, Next(t, Sql);
    FilledMove(t, Sql, literals);
    FilledSecond(t, Sql, literals);
    if OpensBlockComment(t) && |t| > 2 {
      FilledSecond(t[2..], BlockComment, literals);
    } else if |t| > 1 && t[0] == '-' && t[1] == '-' && !OpensLineComment(t) {
      FilledSecond(t[1..], Sql, literals);
    } else if OpensLineComment(t) && |t| > 2 {
      FilledHead(t[2..], LineComment, literals);
    } else {
      FilledHead(t[move.n..], move.mode, literals);
    }
  }

  /** The scan takes the same step on the filled text as on the template. */
  lemma SameMove(t: string, mode: Mode, literals: seq<string>)
    requires AllLiterals(literals) && Fill(t, mode, literals).Some?
    requires t != [] && Next(t, mode).Copy? && IsScanMode(mode)
    ensures var out := Fill(t, mode, literals).value;
      out != [] && Next(out, mode) == Next(t, mode)
  {
    if mode.Sql? {
      SameSqlMove(t, literals);
    } else {
      var move := Next(t, mode);
      FilledMove(t, mode, literals);
      FilledSecond(t, mode, literals);
      FilledHead(t[move.n..], move.mode, literals);
    }
  }

  lemma {:induction false} PlainIsCopied(l: string, rest: string)
    requires IsPlain(l) && Stable(rest, Sql)
    ensures Stable(l + rest, Sql)
    decreases |l|
  {
    if l == [] {
      assert l + rest == rest;
    } else {
      PlainIsCopied(l[1..], rest);
      assert (l + rest)[1..] == l[1..] + rest;
    }
  }

  lemma HexTail(digits: string, rest: string)
    requires digits != []
    ensures var t := digits + "'" + rest; t[0] == digits[0] && t[1..] == digits[1..] + "'" + rest
  {
    DropOne(digits, 0);
  }

  /** A quote before stable text closes the literal, or joins a quote that follows. */
  lemma QuoteCloses(rest: string)
    requires Stable(rest, Sql)
    ensures Stable(['\''] + rest, Quoted('\''))
  {
    var t := ['\''] + rest;
    if rest != [] && rest[0] == '\'' {
      assert t[2..] == rest[1..];
    } else {
      assert t[1..] == rest;
    }
  }

  lemma {:induction false} HexIsCopied(digits: string, rest: string)
    requires forall c :: c in digits ==> IsHexDigit(c)
    requires Stable(rest, Sql)
    ensures Stable(digits + "'" + rest, Quoted('\''))
    decreases |digits|
  {
    if digits == [] {
      QuoteCloses(rest);
      assert digits + "'" + rest == ['\''] + rest;
    } else {
      HexIsCopied(digits[1..], rest);
      HexTail(digits, rest);
      assert IsHexDigit(digits[0]);
    }
  }

  lemma HexOpens(inner: string)
    requires Stable(inner, Quoted('\''))
    ensures Stable("X'" + inner, Sql)
  {
    var t := "X'" + inner;
    assert t[1..] == ['\''] + inner && (['\''] + inner)[1..] == inner;
    assert Stable(['\''] + inner, Sql);
  }

  lemma HexParts(l: string)
    requires IsHexLiteral(l)
    ensures l == ("X'" + l[2..|l| - 1]) + "'"
  {
    var n := |l| - 1;
    TakeDrop(l, n);
    TakeDrop(l[..n], 2);
    assert l[..n][2..] == l[2..n];
    assert l[..n][..2] == [l[0], l[1]] == "X'";
    assert l[n..] == [l[n]] == "'";
  }

  lemma HexLiteralIsCopied(l: string, rest: string)
    requires IsHexLiteral(l) && Stable(rest, Sql)
    ensures Stable(l + rest, Sql)
  {
    var digits := l[2..|l| - 1];
    HexIsCopied(digits, rest);
    HexOpens(digits + "'" + rest);
    HexParts(l);
    Assoc("X'" + digits, "'", rest);
    Assoc("X'", digits, "'" + rest);
    Assoc(digits, "'", rest);
  }

  lemma NullIsPlain()
    ensures IsPlain("NULL")
  {
    assert "NULL"[1..] == "ULL" && "ULL"[1..] == "LL" && "LL"[1..] == "L" && "L"[1..] == "";
    assert IsPlain("L") && IsPlain("LL") && IsPlain("ULL");
  }

  lemma LiteralIsCopied(l: string, rest: string)
    requires IsLiteral(l) && Stable(rest, Sql)
    ensures Stable(l + rest, Sql)
  {
    if IsHexLiteral(l) {
      HexLiteralIsCopied(l, rest);
    } else {
      NullIsPlain();
      PlainIsCopied(l, rest);
    }
  }

  /**
   Every accepted substitution is stable: scanning the result again, with no
   parameters, finds no placeholder, no unterminated quote and nothing to reject.
   */
  lemma {:induction false} FilledIsStable(t: string, mode: Mode, literals: seq<string>)
    requires AllLiterals(literals) && Fill(t, mode, literals).Some? && IsScanMode(mode)
    ensures Stable(Fill(t, mode, literals).value, mode)
    decreases |t|
  {
    var out := Fill(t, mode, literals).value;
    if t == [] {
      assert Segments(t, mode) == Some([""]);
    } else {
      FillStep(t, mode, literals);
      match Next(t, mode) {
        case Placeholder =>
          FilledIsStable(t[1..], Sql, literals[1..]);
          LiteralIsCopied(literals[0], Fill(t[1..], Sql, literals[1..]).value);
        case Copy(n, next) =>
          FilledIsStable(t[n..], next, literals);
          SameMove(t, mode, literals);
          assert out[n..] == Fill(t[n..], next, literals).value;
      }
    }
  }

  lemma RescanIsIdentity(template: string, literals: seq<string>)
    requires AllLiterals(literals) && Fill(template, Sql, literals).Some?
    ensures var sql := Fill(template, Sql, literals).value;
      Fill(sql, Sql, []) == Some(sql)
  {
    FilledIsStable(template, Sql, literals);
    StableIsOneSegment(Fill(template, Sql, literals).value, Sql);
  }
}

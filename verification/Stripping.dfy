/**
 The proxy keeps a template without the white space around it and the server keeps it as sent.
 Filled with the same literals the two differ by that white space only.
 */
module Stripping {
  import opened Wire
  import opened Scanner
  import opened Lexing
  import opened Session

  function LastGrown(segments: seq<string>, tail: string): (grown: seq<string>)
    requires segments != []
    ensures grown != []
  {
    segments[..|segments| - 1] + [segments[|segments| - 1] + tail]
  }

  /** The segments with a tail behind the last one. */
  function Grown(segments: Option<seq<string>>, tail: string): Option<seq<string>>
    requires segments.Some? ==> segments.value != []
  {
    if segments.None? then None else Some(LastGrown(segments.value, tail))
  }

  /** A space behind the text changes no step of the scan before it. */
  lemma NextIgnoresSpace(t: string, c: char, mode: Mode)
    requires t != "" && IsSpace(c) && IsScanMode(mode)
    ensures Next(t + [c], mode) == Next(t, mode)
  {
    var u := t + [c];
    assert forall i :: 0 <= i < |t| ==> u[i] == t[i];
    assert u[|t|] == c;
  }

  lemma GrownInFront(head: string, segments: Option<seq<string>>, tail: string)
    requires segments.Some? ==> segments.value != []
    ensures Grown(InFront(head, segments), tail) == InFront(head, Grown(segments, tail))
  {
    if segments.Some? {
      LastGrownInFront(head, segments.value, tail);
    }
  }

  lemma LastGrownInFront(head: string, segments: seq<string>, tail: string)
    requires segments != []
    ensures LastGrown([head + segments[0]] + segments[1..], tail)
         == [head + LastGrown(segments, tail)[0]] + LastGrown(segments, tail)[1..]
  {
    if |segments| == 1 {
      Assoc(head, segments[0], tail);
    }
  }

  lemma GrownBehindMark(segments: seq<string>, tail: string)
    requires segments != []
    ensures LastGrown([""] + segments, tail) == [""] + LastGrown(segments, tail)
  {
  }

  lemma SpaceAlone(c: char, mode: Mode)
    requires IsSpace(c) && IsScanMode(mode)
    ensures Segments([c], mode) == if MayEnd(mode) then Some([[c]]) else None
  {
    var move := Next([c], mode);
    assert move.Copy? && move.n == 1 && MayEnd(move.mode) == MayEnd(mode);
    assert [c] + "" == [c];
    Copied([c], "", mode, move.mode);
    EmptySegments(move.mode);
    var nothing: seq<string> := [""];
    assert nothing[1..] == [] && [[c] + nothing[0]] + nothing[1..] == [[c]];
  }

  lemma EmptySegments(mode: Mode)
    ensures Segments("", mode) == if MayEnd(mode) then Some([""]) else None
  {
  }

  lemma {:induction false} SpaceBehind(t: string, c: char, mode: Mode)
    requires IsSpace(c) && IsScanMode(mode)
    ensures Segments(t + [c], mode) == Grown(Segments(t, mode), [c])
    decreases |t|
  {
    if t == "" {
      NothingBehind(c, mode);
    } else {
      NextIgnoresSpace(t, c, mode);
      var move := Next(t, mode);
      if move.Placeholder? {
        SpaceBehind(t[1..], c, Sql);
        SpaceBehindMark(t, c, mode);
      } else if move.Copy? {
        var head, tail := t[..move.n], t[move.n..];
        TakeDrop(t, move.n);
        SpaceBehind(tail, c, move.mode);
        SpaceBehindCopy(head, tail, c, mode, move.mode);
      } else {
        RejectedEndsScan(t, mode);
        RejectedEndsScan(t + [c], mode);
      }
    }
  }

  lemma NothingBehind(c: char, mode: Mode)
    requires IsSpace(c) && IsScanMode(mode)
    ensures Segments("" + [c], mode) == Grown(Segments("", mode), [c])
  {
    assert "" + [c] == [c];
    SpaceAlone(c, mode);
    EmptySegments(mode);
    assert LastGrown([""], [c]) == [[c]];
  }

  lemma RejectedEndsScan(t: string, mode: Mode)
    requires t != "" && Next(t, mode).Reject?
    ensures Segments(t, mode).None?
  {
  }

  lemma SpaceBehindMark(t: string, c: char, mode: Mode)
    requires t != "" && Next(t, mode).Placeholder? && Next(t + [c], mode).Placeholder?
    requires Segments(t[1..] + [c], Sql) == Grown(Segments(t[1..], Sql), [c])
    ensures Segments(t + [c], mode) == Grown(Segments(t, mode), [c])
  {
    assert (t + [c])[1..] == t[1..] + [c];
    if Segments(t[1..], Sql).Some? {
      GrownBehindMark(Segments(t[1..], Sql).value, [c]);
    }
  }

  lemma SpaceBehindCopy(head: string, tail: string, c: char, mode: Mode, next: Mode)
    requires head != "" && Next(head + tail, mode) == Copy(|head|, next)
    requires Next((head + tail) + [c], mode) == Copy(|head|, next)
    requires Segments(tail + [c], next) == Grown(Segments(tail, next), [c])
    ensures Segments((head + tail) + [c], mode) == Grown(Segments(head + tail, mode), [c])
  {
    Assoc(head, tail, [c]);
    Copied(head, tail, mode, next);
    Copied(head, tail + [c], mode, next);
    GrownInFront(head, Segments(tail, next), [c]);
  }

  lemma {:induction false} InterleaveGrown(segments: seq<string>, literals: seq<string>, tail: string)
    requires |segments| == |literals| + 1
    ensures Interleave(LastGrown(segments, tail), literals) == Interleave(segments, literals) + tail
  {
    if literals != [] {
      InterleaveGrown(segments[1..], literals[1..], tail);
      assert LastGrown(segments, tail)[1..] == LastGrown(segments[1..], tail);
      Assoc(segments[0] + literals[0], Interleave(segments[1..], literals[1..]), tail);
    }
  }

  lemma FillBehind(t: string, c: char, literals: seq<string>)
    requires IsSpace(c)
    ensures Fill(t + [c], Sql, literals)
         == if Fill(t, Sql, literals).None? then None else Some(Fill(t, Sql, literals).value + [c])
  {
    SpaceBehind(t, c, Sql);
    if Fill(t, Sql, literals).Some? {
      InterleaveGrown(Segments(t, Sql).value, literals, [c]);
    }
  }

  lemma FillInFront(c: char, t: string, literals: seq<string>)
    requires IsSpace(c)
    ensures Fill([c] + t, Sql, literals) == Prefixed([c], Fill(t, Sql, literals))
  {
    FillStep([c] + t, Sql, literals);
    assert ([c] + t)[1..] == t && ([c] + t)[..1] == [c];
  }

  lemma {:induction false} StripForgetsLast(s: string, c: char)
    requires IsSpace(c)
    ensures Strip(s + [c]) == Strip(s)
    decreases |s|
  {
    if s == "" {
      assert s + [c] == [c] && [c][1..] == "";
    } else if IsSpace(s[0]) {
      assert (s + [c])[1..] == s[1..] + [c];
      StripForgetsLast(s[1..], c);
    } else {
      assert (s + [c])[..|s|] == s;
    }
  }

  lemma StripForgetsFirst(c: char, s: string)
    requires IsSpace(c)
    ensures Strip([c] + s) == Strip(s)
  {
    assert ([c] + s)[1..] == s;
  }

  /**
   Filling a template and filling it stripped succeed alike and give the same text but for the white space around it.
   */
  lemma {:induction false} FilledAlikeStripped(t: string, literals: seq<string>)
    ensures var whole, stripped := Fill(t, Sql, literals), Fill(Strip(t), Sql, literals);
      (whole.Some? <==> stripped.Some?) && (whole.Some? ==> Strip(whole.value) == Strip(stripped.value))
    decreases |t|
  {
    if t != "" && IsSpace(t[0]) {
      DropOne(t, 0);
      FilledAlikeStripped(t[1..], literals);
      FillInFront(t[0], t[1..], literals);
      if Fill(t[1..], Sql, literals).Some? {
        StripForgetsFirst(t[0], Fill(t[1..], Sql, literals).value);
      }
    } else if t != "" && IsSpace(t[|t| - 1]) {
      var n := |t| - 1;
      assert t[..n] + [t[n]] == t;
      FilledAlikeStripped(t[..n], literals);
      FillBehind(t[..n], t[n], literals);
      if Fill(t[..n], Sql, literals).Some? {
        StripForgetsLast(Fill(t[..n], Sql, literals).value, t[n]);
      }
    }
  }
}

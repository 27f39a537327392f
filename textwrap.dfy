/**
 * Python's `textwrap.wrap(text, width)` with its default options
 * (expand_tabs, replace_whitespace, drop_whitespace, break_long_words,
 * no indents, no max_lines), which both card renderers use to wrap text
 * at a fixed number of characters, and `WrapParagraphs`, the result of
 * their `wrap_text` helpers: `text.split("\n")`, each paragraph wrapped on
 * its own, the lines concatenated in paragraph order.
 */
module TextWrap {
  import opened PyStr

  const TabSize: nat := 8

  /** textwrap's `_whitespace`: the characters it treats as word separators. */
  predicate IsWrapSpace(c: char) {
    c == '\t' || c == '\n' || c == '\U{0B}' || c == '\U{0C}' || c == '\r' || c == ' '
  }

  /** Every chunk of a chunk list is non-empty (the regex split drops empty ones). */
  predicate NonEmptyChunks(chunks: seq<string>) {
    forall i :: 0 <= i < |chunks| ==> chunks[i] != []
  }

  /** `"".join(parts)` */
  function Concat(parts: seq<string>): string {
    if parts == [] then [] else parts[0] + Concat(parts[1..])
  }

  lemma {:induction false} ConcatAppend(a: seq<string>, b: seq<string>)
    ensures Concat(a + b) == Concat(a) + Concat(b)
  {
    if a == [] {
      assert a + b == b;
    } else {
      assert (a + b)[0] == a[0];
      assert (a + b)[1..] == a[1..] + b;
      ConcatAppend(a[1..], b);
    }
  }

  lemma ConcatCons(x: string, more: seq<string>)
    ensures Concat([x] + more) == x + Concat(more)
  {
    assert ([x] + more)[1..] == more;
  }

  /** Putting a short enough line in front keeps every line within `width`. */
  lemma LinesCons(x: string, more: seq<string>, width: nat)
    requires |x| <= width
    requires forall i :: 0 <= i < |more| ==> |more[i]| <= width
    ensures forall i :: 0 <= i < |[x] + more| ==> |([x] + more)[i]| <= width
  {
  }

  lemma {:induction false} ConcatSingle(x: string)
    ensures Concat([x]) == x
  {
    var single: seq<string> := [x];
    assert single[1..] == [];
  }

  function Spaces(n: nat): (r: string)
    ensures |r| == n && forall i :: 0 <= i < n ==> r[i] == ' '
  {
    if n == 0 then [] else [' '] + Spaces(n - 1)
  }

  /**
   * `s.expandtabs(TabSize)` for a string whose first character sits at
   * column `col`: a tab becomes the spaces up to the next tab stop, and
   * "\n" and "\r" reset the column.
   */
  function ExpandTabs(s: string, col: nat): (r: string)
    ensures '\t' !in r
    decreases |s|
  {
    if s == [] then []
    else if s[0] == '\t' then
      var n := TabSize - col % TabSize;
      Spaces(n) + ExpandTabs(s[1..], col + n)
    else if s[0] == '\n' || s[0] == '\r' then [s[0]] + ExpandTabs(s[1..], 0)
    else [s[0]] + ExpandTabs(s[1..], col + 1)
  }

  /** What a character at column `col` expands to. */
  function Expanded(c: char, col: nat): string {
    if c == '\t' then Spaces(TabSize - col % TabSize) else [c]
  }

  /** The column after a character at column `col`. */
  function NextColumn(c: char, col: nat): nat {
    if c == '\t' then col + TabSize - col % TabSize
    else if c == '\n' || c == '\r' then 0
    else col + 1
  }

  /** Expansion goes character by character. */
  lemma ExpandTabsStep(s: string, col: nat)
    requires s != []
    ensures ExpandTabs(s, col) == Expanded(s[0], col) + ExpandTabs(s[1..], NextColumn(s[0], col))
  {
  }

  /** `replace_whitespace`: each textwrap whitespace character becomes a space. */
  function ReplaceWhitespace(s: string): (r: string)
    ensures |r| == |s|
    ensures forall i :: 0 <= i < |r| ==> r[i] == (if IsWrapSpace(s[i]) then ' ' else s[i])
  {
    if s == [] then [] else [if IsWrapSpace(s[0]) then ' ' else s[0]] + ReplaceWhitespace(s[1..])
  }

  /** `_munge_whitespace`: tabs expanded, then whitespace turned into spaces. */
  function Munge(s: string): string {
    ReplaceWhitespace(ExpandTabs(s, 0))
  }

  /** Length of the leading run of `s` made of spaces (`space`) or of non-spaces. */
  function RunLength(s: string, space: bool): (n: nat)
    ensures n <= |s|
    ensures forall i :: 0 <= i < n ==> (s[i] == ' ') == space
    ensures n < |s| ==> (s[n] == ' ') != space
  {
    if s == [] || (s[0] == ' ') != space then 0 else 1 + RunLength(s[1..], space)
  }

  /**
   * `_split_chunks` on munged text: the maximal runs of spaces and of
   * non-spaces, in order.
   */
  function Chunks(s: string): (chunks: seq<string>)
    ensures NonEmptyChunks(chunks)
    ensures Concat(chunks) == s
    decreases |s|
  {
    if s == [] then []
    else
      var n := RunLength(s, s[0] == ' ');
      var rest := Chunks(s[n..]);
      assert ([s[..n]] + rest)[1..] == rest;
      assert s[..n] + s[n..] == s;
      [s[..n]] + rest
  }

  /**
   * The greedy part of `_wrap_chunks`: move chunks onto the line while
   * they fit in the `room` left on it.
   */
  function TakeFitting(chunks: seq<string>, room: int): (r: (seq<string>, seq<string>))
    ensures r.0 + r.1 == chunks
    ensures room >= 0 ==> |Concat(r.0)| <= room
    ensures r.1 != [] ==> |Concat(r.0)| + |r.1[0]| > room
  {
    if chunks != [] && |chunks[0]| <= room then
      var (taken, rest) := TakeFitting(chunks[1..], room - |chunks[0]|);
      assert [chunks[0]] + taken + rest == chunks;
      assert ([chunks[0]] + taken)[1..] == taken;
      ([chunks[0]] + taken, rest)
    else ([], chunks)
  }

  /**
   * `s.rfind('-', 0, hi)`: the last index below `hi` holding a hyphen,
   * or -1.
   */
  function RFindHyphen(s: string, hi: nat): (i: int)
    requires hi <= |s|
    ensures -1 <= i < hi
    ensures i >= 0 ==> s[i] == '-'
    ensures forall j :: i < j < hi ==> s[j] != '-'
  {
    if hi == 0 then -1 else if s[hi - 1] == '-' then hi - 1 else RFindHyphen(s, hi - 1)
  }

  /**
   * `_handle_long_word`: how many characters of a chunk too long for any
   * line go on the current line, which has `spaceLeft` characters free;
   * the cut is moved back to just after a hyphen when one has a
   * non-hyphen before it.
   */
  function LongWordCut(chunk: string, spaceLeft: nat): (end: nat)
    requires spaceLeft < |chunk|
    ensures end <= spaceLeft
    ensures spaceLeft > 0 ==> end > 0
  {
    var hyphen := RFindHyphen(chunk, spaceLeft);
    if hyphen > 0 && exists i :: 0 <= i < hyphen && chunk[i] != '-' then hyphen + 1 else spaceLeft
  }

  /** One line of `_wrap_chunks`: the chunks that form it and the chunks still to wrap. */
  datatype Line = Line(pieces: seq<string>, rest: seq<string>)

  /**
   * The body of the `_wrap_chunks` loop after the leading-whitespace drop:
   * fill the line greedily, split an over-long chunk, drop a trailing
   * whitespace chunk. The line never exceeds `width`, the remaining chunks
   * get shorter, and no non-whitespace character is lost.
   */
  function FillLine(chunks: seq<string>, width: nat): (r: Line)
    requires width >= 1
    requires NonEmptyChunks(chunks)
    ensures |Concat(r.pieces)| <= width
    ensures NonEmptyChunks(r.rest)
    ensures chunks != [] ==> |Concat(r.rest)| < |Concat(chunks)|
    ensures NonBlank(Concat(r.pieces)) + NonBlank(Concat(r.rest)) == NonBlank(Concat(chunks))
  {
    var (taken, rest) := TakeFitting(chunks, width);
    assert NonEmptyChunks(rest) by {
      forall i | 0 <= i < |rest| ensures rest[i] != [] {
        assert rest[i] == chunks[|taken| + i];
      }
    }
    var used := |Concat(taken)|;
    if rest != [] && |rest[0]| > width then
      var e := LongWordCut(rest[0], width - used);
      var cur := taken + [rest[0][..e]];
      var rest2 := [rest[0][e..]] + rest[1..];
      FillLineLong(chunks, taken, rest, e);
      DropTrailingBlank(cur, rest2, width);
      assert NonEmptyChunks(rest2) by {
        forall i | 0 <= i < |rest2| ensures rest2[i] != [] {
          if i > 0 { assert rest2[i] == chunks[|taken| + i]; }
        }
      }
      Line(if IsBlank(cur[|cur| - 1]) then cur[..|cur| - 1] else cur, rest2)
    else
      ConcatAppend(taken, rest);
      if taken != [] && IsBlank(taken[|taken| - 1]) then
        DropTrailingBlank(taken, rest, width);
        Line(taken[..|taken| - 1], rest)
      else
        NonBlankAppend(Concat(taken), Concat(rest));
        assert taken == [] ==> rest == chunks;
        Line(taken, rest)
  }

  /** Facts about the over-long-chunk split of `FillLine`. */
  lemma {:induction false} FillLineLong(chunks: seq<string>, taken: seq<string>, rest: seq<string>, e: nat)
    requires taken + rest == chunks && rest != [] && e < |rest[0]|
    ensures Concat(taken + [rest[0][..e]]) + Concat([rest[0][e..]] + rest[1..]) == Concat(chunks)
    ensures |Concat([rest[0][e..]] + rest[1..])| + |Concat(taken)| + e == |Concat(chunks)|
  {
    var c := rest[0];
    var tail := rest[1..];
    assert rest == [c] + tail;
    ConcatAppend(taken, [c[..e]]);
    ConcatAppend([c[e..]], tail);
    ConcatAppend([c], tail);
    ConcatAppend(taken, rest);
    ConcatSingle(c[..e]);
    ConcatSingle(c[e..]);
    ConcatSingle(c);
    assert c[..e] + c[e..] == c;
  }

  /**
   * Dropping the last chunk of a line when it is whitespace keeps the
   * non-whitespace characters and the bound.
   */
  lemma {:induction false} DropTrailingBlank(cur: seq<string>, rest: seq<string>, width: nat)
    requires cur != [] && |Concat(cur)| <= width
    ensures var line := if IsBlank(cur[|cur| - 1]) then cur[..|cur| - 1] else cur;
      |Concat(line)| <= width
      && NonBlank(Concat(line)) + NonBlank(Concat(rest)) == NonBlank(Concat(cur) + Concat(rest))
  {
    var last := cur[|cur| - 1];
    assert cur == cur[..|cur| - 1] + [last];
    ConcatAppend(cur[..|cur| - 1], [last]);
    assert Concat([last]) == last by { assert |[last][1..]| == 0; }
    NonBlankAppend(Concat(cur[..|cur| - 1]), last);
    NonBlankAppend(Concat(cur), Concat(rest));
    if IsBlank(last) {
      NonBlankOfBlank(last);
    }
  }

  /**
   * `_wrap_chunks`: the lines built from `chunks`; `started` says whether
   * a line has been emitted already, which is when a leading whitespace
   * chunk is dropped. Every line has at most `width` characters and the
   * lines hold exactly the non-whitespace characters of the chunks, in
   * order.
   */
  function WrapChunks(chunks: seq<string>, width: nat, started: bool): (lines: seq<string>)
    requires width >= 1
    requires NonEmptyChunks(chunks)
    ensures forall i :: 0 <= i < |lines| ==> |lines[i]| <= width
    ensures NonBlank(Concat(lines)) == NonBlank(Concat(chunks))
    decreases |Concat(chunks)|
  {
    if chunks == [] then []
    else
      var todo := if started && IsBlank(chunks[0]) then chunks[1..] else chunks;
      DropLeadingBlank(chunks, todo);
      var l := FillLine(todo, width);
      if l.pieces == [] then
        WrapChunks(l.rest, width, started)
      else
        var line := Concat(l.pieces);
        var more := WrapChunks(l.rest, width, true);
        ConcatCons(line, more);
        LinesCons(line, more, width);
        NonBlankAppend(line, Concat(more));
        [line] + more
  }

  lemma {:induction false} DropLeadingBlank(chunks: seq<string>, todo: seq<string>)
    requires chunks != [] && chunks[0] != []
    requires todo == chunks || (todo == chunks[1..] && IsBlank(chunks[0]))
    ensures NonBlank(Concat(todo)) == NonBlank(Concat(chunks))
    ensures |Concat(todo)| <= |Concat(chunks)|
    ensures todo == [] ==> |Concat(chunks)| > 0
  {
    if todo != chunks {
      NonBlankAppend(chunks[0], Concat(chunks[1..]));
      NonBlankOfBlank(chunks[0]);
    }
  }

  /** `textwrap.wrap(text, width)` with the default options. */
  function Wrap(text: string, width: nat): (lines: seq<string>)
    requires width >= 1
    ensures forall i :: 0 <= i < |lines| ==> |lines[i]| <= width
  {
    WrapChunks(Chunks(Munge(text)), width, false)
  }

  /**
   * The lines of `wrap_text`: the text is split at "\n" and every
   * paragraph is wrapped on its own, in order.
   */
  function WrapAll(paragraphs: seq<string>, width: nat): (lines: seq<string>)
    requires width >= 1
    ensures forall i :: 0 <= i < |lines| ==> |lines[i]| <= width
  {
    if paragraphs == [] then []
    else WrapAll(paragraphs[..|paragraphs| - 1], width) + Wrap(paragraphs[|paragraphs| - 1], width)
  }

  function WrapParagraphs(text: string, width: nat): (lines: seq<string>)
    requires width >= 1
    ensures forall i :: 0 <= i < |lines| ==> |lines[i]| <= width
  {
    WrapAll(Split(text, '\n'), width)
  }

  // ---------------------------------------------------------------------
  // What wrapping keeps

  lemma {:induction false} ExpandTabsNonBlank(s: string, col: nat)
    ensures NonBlank(ExpandTabs(s, col)) == NonBlank(s)
    decreases |s|
  {
    if s != [] {
      var head := if s[0] == '\t' then Spaces(TabSize - col % TabSize) else [s[0]];
      var col' := if s[0] == '\t' then col + TabSize - col % TabSize
                  else if s[0] == '\n' || s[0] == '\r' then 0 else col + 1;
      assert ExpandTabs(s, col) == head + ExpandTabs(s[1..], col');
      ExpandTabsNonBlank(s[1..], col');
      NonBlankAppend(head, ExpandTabs(s[1..], col'));
      NonBlankOfBlank(head);
      assert s == [s[0]] + s[1..];
      NonBlankAppend([s[0]], s[1..]);
      if s[0] == '\t' { NonBlankOfBlank([s[0]]); }
    }
  }

  lemma {:induction false} ReplaceWhitespaceNonBlank(s: string)
    ensures NonBlank(ReplaceWhitespace(s)) == NonBlank(s)
  {
    if s != [] {
      var r := ReplaceWhitespace(s);
      ReplaceWhitespaceNonBlank(s[1..]);
      assert r[1..] == ReplaceWhitespace(s[1..]);
    }
  }

  /** Munging the whitespace loses no visible character. */
  lemma {:induction false} MungeNonBlank(s: string)
    ensures NonBlank(Munge(s)) == NonBlank(s)
  {
    ExpandTabsNonBlank(s, 0);
    ReplaceWhitespaceNonBlank(ExpandTabs(s, 0));
  }

  /** `textwrap.wrap` keeps every non-whitespace character, in order. */
  lemma {:induction false} WrapNonBlank(text: string, width: nat)
    requires width >= 1
    ensures NonBlank(Concat(Wrap(text, width))) == NonBlank(text)
  {
    MungeNonBlank(text);
  }

  /** The lines of a paragraph list hold the paragraphs' visible characters, in order. */
  lemma {:induction false} WrapAllNonBlank(paragraphs: seq<string>, width: nat)
    requires width >= 1
    ensures NonBlank(Concat(WrapAll(paragraphs, width))) == NonBlank(Concat(paragraphs))
  {
    if paragraphs != [] {
      var init, last := paragraphs[..|paragraphs| - 1], paragraphs[|paragraphs| - 1];
      assert paragraphs == init + [last];
      WrapAllSnoc(init, last, width);
      var a, b := WrapAll(init, width), Wrap(last, width);
      WrapAllNonBlank(init, width);
      WrapNonBlank(last, width);
      ConcatAppend(a, b);
      NonBlankAppend(Concat(a), Concat(b));
      ConcatAppend(init, [last]);
      ConcatSingle(last);
      NonBlankAppend(Concat(init), last);
    }
  }

  /** Joining with a whitespace separator adds no visible character. */
  lemma {:induction false} JoinNonBlank(parts: seq<string>, sep: string)
    requires IsBlank(sep)
    ensures NonBlank(Join(parts, sep)) == NonBlank(Concat(parts))
  {
    if |parts| == 1 {
      assert parts == [parts[0]];
      ConcatSingle(parts[0]);
    } else if |parts| > 1 {
      assert Concat(parts) == parts[0] + Concat(parts[1..]);
      assert Join(parts, sep) == (parts[0] + sep) + Join(parts[1..], sep);
      JoinNonBlank(parts[1..], sep);
      NonBlankAppend(parts[0] + sep, Join(parts[1..], sep));
      NonBlankAppend(parts[0], sep);
      NonBlankOfBlank(sep);
      NonBlankAppend(parts[0], Concat(parts[1..]));
    }
  }

  /**
   * `wrap_text` keeps every visible character of its text, in order:
   * wrapping only moves whitespace.
   */
  lemma {:induction false} WrapParagraphsNonBlank(text: string, width: nat)
    requires width >= 1
    ensures NonBlank(Concat(WrapParagraphs(text, width))) == NonBlank(text)
  {
    WrapAllNonBlank(Split(text, '\n'), width);
    JoinSplit(text, '\n');
    assert IsBlank("\n");
    JoinNonBlank(Split(text, '\n'), "\n");
  }

  /** A text with any visible character yields at least one line. */
  lemma {:induction false} VisibleTextHasLines(text: string, width: nat)
    requires width >= 1
    requires NonBlank(text) != []
    ensures |WrapParagraphs(text, width)| >= 1
  {
    WrapParagraphsNonBlank(text, width);
  }

  // ---------------------------------------------------------------------
  // Paragraphs

  /** Wrapping one more paragraph of a list adds that paragraph's lines. */
  lemma WrapAllPrefix(ps: seq<string>, i: nat, width: nat)
    requires width >= 1 && i < |ps|
    ensures WrapAll(ps[..i + 1], width) == WrapAll(ps[..i], width) + Wrap(ps[i], width)
  {
    assert ps[..i + 1][..i] == ps[..i];
  }

  lemma WrapAllSnoc(ps: seq<string>, p: string, width: nat)
    requires width >= 1
    ensures WrapAll(ps + [p], width) == WrapAll(ps, width) + Wrap(p, width)
  {
    var q := ps + [p];
    assert q[..|q| - 1] == ps;
    assert q[|q| - 1] == p;
  }

  lemma {:induction false} WrapAllAppend(ps: seq<string>, qs: seq<string>, width: nat)
    requires width >= 1
    ensures WrapAll(ps + qs, width) == WrapAll(ps, width) + WrapAll(qs, width)
    decreases |qs|
  {
    if qs == [] {
      assert ps + qs == ps;
    } else {
      var init, last := qs[..|qs| - 1], qs[|qs| - 1];
      var a, b, c := WrapAll(ps, width), WrapAll(init, width), Wrap(last, width);
      Snoc(ps, qs);
      WrapAllSnoc(ps + init, last, width);
      WrapAllSnoc(init, last, width);
      WrapAllAppend(ps, init, width);
      AppendAssoc(a, b, c);
    }
  }

  /**
   * Paragraphs are wrapped independently: the lines of `a + "\n" + b` are
   * the lines of `a` followed by the lines of `b`.
   */
  lemma {:induction false} ParagraphsIndependent(a: string, b: string, width: nat)
    requires width >= 1
    ensures WrapParagraphs(a + "\n" + b, width) == WrapParagraphs(a, width) + WrapParagraphs(b, width)
  {
    SplitAround(a, b, '\n');
    WrapAllAppend(Split(a, '\n'), Split(b, '\n'), width);
  }

  // ---------------------------------------------------------------------
  // Blank paragraphs

  lemma {:induction false} ExpandTabsOfSpace(s: string, col: nat)
    requires forall i :: 0 <= i < |s| ==> IsWrapSpace(s[i])
    ensures forall i :: 0 <= i < |ExpandTabs(s, col)| ==> IsWrapSpace(ExpandTabs(s, col)[i])
    decreases |s|
  {
    if s != [] {
      var col' := if s[0] == '\t' then col + TabSize - col % TabSize
                  else if s[0] == '\n' || s[0] == '\r' then 0 else col + 1;
      ExpandTabsOfSpace(s[1..], col');
    }
  }

  /** A whitespace chunk, alone or after a line, never produces a line. */
  lemma {:induction false} BlankChunkVanishes(s: string, width: nat, started: bool)
    requires width >= 1 && s != [] && IsBlank(s)
    ensures WrapChunks([s], width, started) == []
    decreases |s|
  {
    if !started {
      var l := FillLine([s], width);
      if |s| <= width {
        var none: seq<string> := [];
        assert [s][1..] == none;
        assert TakeFitting(none, width - |s|) == (none, none);
        assert [s][0] == s && [s] + none == [s];
        assert TakeFitting([s], width) == ([s], none);
        assert l == Line(none, none);
      } else {
        assert TakeFitting([s], width) == ([], [s]);
        var e := LongWordCut(s, width);
        assert e == width;
        assert IsBlank(s[..e]);
        assert IsBlank(s[e..]);
        assert l == Line([], [s[e..]]);
        BlankChunkVanishes(s[e..], width, false);
      }
    } else {
      assert |[s][1..]| == 0;
    }
  }

  /**
   * A paragraph made only of spaces, tabs and the like contributes no
   * line.
   */
  lemma {:induction false} BlankParagraphHasNoLines(p: string, width: nat)
    requires width >= 1
    requires forall i :: 0 <= i < |p| ==> IsWrapSpace(p[i])
    ensures Wrap(p, width) == []
  {
    ExpandTabsOfSpace(p, 0);
    var m := Munge(p);
    assert forall i :: 0 <= i < |m| ==> m[i] == ' ';
    if m != [] {
      assert RunLength(m, true) == |m|;
      assert m[|m|..] == [];
      assert m[..|m|] == m;
      assert Chunks(m) == [m];
      BlankChunkVanishes(m, width, false);
    }
  }

  // ---------------------------------------------------------------------
  // Short paragraphs

  lemma {:induction false} ExpandTabsNoTab(s: string, col: nat)
    requires '\t' !in s
    ensures ExpandTabs(s, col) == s
    decreases |s|
  {
    if s != [] {
      var col' := if s[0] == '\n' || s[0] == '\r' then 0 else col + 1;
      assert '\t' !in s[1..];
      ExpandTabsNoTab(s[1..], col');
      assert s == [s[0]] + s[1..];
    }
  }

  lemma {:induction false} TakeAllWhenFits(chunks: seq<string>, room: int)
    requires |Concat(chunks)| <= room
    ensures TakeFitting(chunks, room) == (chunks, [])
  {
    if chunks != [] {
      assert |chunks[0]| <= room;
      TakeAllWhenFits(chunks[1..], room - |chunks[0]|);
      assert [chunks[0]] + chunks[1..] == chunks;
    }
  }

  /**
   * A paragraph that fits within the width, holds no tab or other
   * special whitespace and ends with a visible character is one line,
   * unchanged.
   */
  lemma {:induction false} FitsOnOneLine(p: string, width: nat)
    requires width >= 1 && 0 < |p| <= width
    requires forall i :: 0 <= i < |p| ==> p[i] == ' ' || !IsWrapSpace(p[i])
    requires !IsSpace(p[|p| - 1])
    ensures Wrap(p, width) == [p]
  {
    ExpandTabsNoTab(p, 0);
    assert Munge(p) == p;
    var cs := Chunks(p);
    TakeAllWhenFits(cs, width);
    var n := |cs|;
    var last := cs[n - 1];
    assert cs == cs[..n - 1] + [last];
    ConcatAppend(cs[..n - 1], [last]);
    var single: seq<string> := [last];
    assert Concat(single) == last by { assert |single[1..]| == 0; }
    assert p[|p| - 1] == last[|last| - 1];
    assert !IsBlank(last);
    var none: seq<string> := [];
    assert FillLine(cs, width) == Line(cs, none);
    assert WrapChunks(cs, width, false) == [p] + WrapChunks(none, width, true);
  }

  // ---------------------------------------------------------------------
  // Tab stops

  /**
   * On a line without "\n" or "\r", a tab becomes the spaces up to the
   * next multiple of `TabSize`, counted from the column the line started
   * at, and expansion goes on from that tab stop.
   */
  lemma {:induction false} ExpandTabsTabStop(a: string, b: string, col: nat)
    requires '\n' !in a && '\r' !in a
    ensures TabStopAfter(a, b, col)
    decreases |a|
  {
    if a == [] {
      TabStopHere(b, col);
    } else {
      assert '\n' !in a[1..] && '\r' !in a[1..];
      ExpandTabsTabStop(a[1..], b, NextColumn(a[0], col));
      TabStopLater(a, b, col);
    }
  }

  /**
   * A tab after `a`, which started at column `col`, becomes `n` spaces,
   * 1 to `TabSize` of them, that reach the next tab stop; `b` is then
   * expanded from that tab stop.
   */
  predicate TabStopAfter(a: string, b: string, col: nat) {
    var e := ExpandTabs(a, col);
    var n := TabSize - (col + |e|) % TabSize;
    && 1 <= n <= TabSize && (col + |e| + n) % TabSize == 0
    && ExpandTabs(a + ['\t'] + b, col) == e + Spaces(n) + ExpandTabs(b, col + |e| + n)
  }

  /** A tab at the start: the spaces up to the next tab stop. */
  lemma TabStopHere(b: string, col: nat)
    ensures TabStopAfter([], b, col)
  {
    TabStopArith(col);
    var s := [] + ['\t'] + b;
    assert s[0] == '\t' && s[1..] == b;
    ExpandTabsStep(s, col);
    var x, sp, r := ExpandTabs(s, col), Spaces(TabSize - col % TabSize), ExpandTabs(b, col + TabSize - col % TabSize);
    assert x == sp + r;
    LeftUnit(ExpandTabs([], col), sp, r);
  }

  /** The induction step of `ExpandTabsTabStop`: one more ordinary character in front. */
  lemma TabStopLater(a: string, b: string, col: nat)
    requires a != [] && a[0] != '\n' && a[0] != '\r'
    requires TabStopAfter(a[1..], b, NextColumn(a[0], col))
    ensures TabStopAfter(a, b, col)
  {
    var c := a[0];
    var col' := NextColumn(c, col);
    var e, e' := ExpandTabs(a, col), ExpandTabs(a[1..], col');
    var n := TabSize - (col + |e|) % TabSize;
    TabStopArith(col + |e|);
    var s := a + ['\t'] + b;
    assert s[0] == c && s[1..] == a[1..] + ['\t'] + b;
    ExpandTabsStep(s, col);
    ExpandTabsStep(a, col);
    var head := Expanded(c, col);
    assert col' + |e'| == col + |e|;
    PrependSplit(ExpandTabs(s, col), head, ExpandTabs(s[1..], col'), e, e', Spaces(n), ExpandTabs(b, col + |e| + n));
  }

  /** `[] + x + y` is `x + y`. */
  lemma LeftUnit(e: string, x: string, y: string)
    requires e == []
    ensures e + x + y == x + y
  {
  }

  /** The spaces a tab at column `k` becomes: between 1 and `TabSize`, ending on a tab stop. */
  lemma TabStopArith(k: nat)
    ensures 1 <= TabSize - k % TabSize <= TabSize && (k + (TabSize - k % TabSize)) % TabSize == 0
  {
  }

  /** Putting the same front on a string and on the first part of its split. */
  lemma PrependSplit(x: string, head: string, y: string, e: string, e': string, spaces: string, rest: string)
    requires x == head + y && e == head + e' && y == e' + spaces + rest
    ensures x == e + spaces + rest
  {
  }

  /**
   * "\n" and "\r" are kept and restart the column: what follows them is
   * expanded as from column 0, whatever came before.
   */
  lemma {:induction false} ExpandTabsLineBreak(a: string, c: char, b: string, col: nat)
    requires c == '\n' || c == '\r'
    ensures LineBreakAfter(a, c, b, col)
    decreases |a|
  {
    if a == [] {
      var s := a + [c] + b;
      assert s[0] == c && s[1..] == b;
      ExpandTabsStep(s, col);
      LeftUnit(ExpandTabs(a, col), [c], ExpandTabs(b, 0));
    } else {
      ExpandTabsLineBreak(a[1..], c, b, NextColumn(a[0], col));
      LineBreakLater(a, c, b, col);
    }
  }

  /** Expanding `a + [c] + b` is expanding `a`, then `c`, then `b` from column 0. */
  predicate LineBreakAfter(a: string, c: char, b: string, col: nat) {
    ExpandTabs(a + [c] + b, col) == ExpandTabs(a, col) + [c] + ExpandTabs(b, 0)
  }

  /** The induction step of `ExpandTabsLineBreak`: one more character in front. */
  lemma LineBreakLater(a: string, c: char, b: string, col: nat)
    requires a != [] && LineBreakAfter(a[1..], c, b, NextColumn(a[0], col))
    ensures LineBreakAfter(a, c, b, col)
  {
    var col' := NextColumn(a[0], col);
    var s := a + [c] + b;
    assert s[0] == a[0] && s[1..] == a[1..] + [c] + b;
    ExpandTabsStep(s, col);
    ExpandTabsStep(a, col);
    PrependSplit(ExpandTabs(s, col), Expanded(a[0], col), ExpandTabs(s[1..], col'),
                   ExpandTabs(a, col), ExpandTabs(a[1..], col'), [c], ExpandTabs(b, 0));
  }


  // ---------------------------------------------------------------------
  // Chunks are the maximal runs

  /**
   * Each chunk is a run of spaces or a run of non-spaces, and two
   * neighbouring chunks are of different kinds, so no run is split.
   */
  predicate MaximalRuns(chunks: seq<string>) {
    && NonEmptyChunks(chunks)
    && (forall i, j :: 0 <= i < |chunks| && 0 <= j < |chunks[i]| ==> (chunks[i][j] == ' ') == (chunks[i][0] == ' '))
    && (forall i :: 0 <= i < |chunks| - 1 ==> (chunks[i][0] == ' ') != (chunks[i + 1][0] == ' '))
  }

  /** `_split_chunks` cuts the text into its maximal runs of spaces and of non-spaces. */
  lemma {:induction false} ChunksAreRuns(s: string)
    ensures MaximalRuns(Chunks(s))
    decreases |s|
  {
    if s != [] {
      var n := RunLength(s, s[0] == ' ');
      var rest := Chunks(s[n..]);
      ChunksAreRuns(s[n..]);
      if rest != [] {
        ConcatHead(rest);
        assert rest[0][0] == s[n];
      }
      RunsCons(s[..n], rest);
      assert Chunks(s) == [s[..n]] + rest;
    }
  }

  /** The first character of a concatenation whose first part is not empty. */
  lemma ConcatHead(cs: seq<string>)
    requires cs != [] && cs[0] != []
    ensures Concat(cs) != [] && Concat(cs)[0] == cs[0][0]
  {
  }

  /** A run in front of maximal runs of the other kind gives maximal runs. */
  lemma RunsCons(x: string, rest: seq<string>)
    requires x != [] && forall j :: 0 <= j < |x| ==> (x[j] == ' ') == (x[0] == ' ')
    requires MaximalRuns(rest)
    requires rest != [] ==> (rest[0][0] == ' ') != (x[0] == ' ')
    ensures MaximalRuns([x] + rest)
  {
    var cs := [x] + rest;
    assert forall i :: 0 < i < |cs| ==> cs[i] == rest[i - 1];
  }

  // ---------------------------------------------------------------------
  // Where a long word is cut

  /** A hyphen at `h` after which a long word may be cut: not the first character, and not in a leading run of hyphens. */
  predicate BreakHyphen(chunk: string, h: int) {
    0 < h < |chunk| && chunk[h] == '-' && exists i :: 0 <= i < h && chunk[i] != '-'
  }

  /**
   * `_handle_long_word` cuts right after the last hyphen before the room
   * runs out when that hyphen has a non-hyphen somewhere before it, and
   * otherwise exactly where the room runs out.
   */
  lemma LongWordCutRule(chunk: string, spaceLeft: nat)
    requires spaceLeft < |chunk|
    ensures var end := LongWordCut(chunk, spaceLeft);
      && ((exists h :: h < spaceLeft && BreakHyphen(chunk, h)) ==>
            BreakHyphen(chunk, end - 1) && forall j :: end <= j < spaceLeft ==> chunk[j] != '-')
      && ((forall h :: h < spaceLeft ==> !BreakHyphen(chunk, h)) ==> end == spaceLeft)
  {
    var hyphen := RFindHyphen(chunk, spaceLeft);
    if exists h :: h < spaceLeft && BreakHyphen(chunk, h) {
      var h :| h < spaceLeft && BreakHyphen(chunk, h);
      assert h <= hyphen;
      var i :| 0 <= i < h && chunk[i] != '-';
      assert 0 <= i < hyphen && chunk[i] != '-';
    } else if hyphen > 0 && exists i :: 0 <= i < hyphen && chunk[i] != '-' {
      assert BreakHyphen(chunk, hyphen);
      assert false;
    }
  }

  // ---------------------------------------------------------------------
  // The greedy filler

  /**
   * The filler takes exactly the chunks that fit: given a prefix that
   * fits in `room` and a next chunk that does not, it stops right there.
   */
  lemma {:induction false} TakeFittingExact(line: seq<string>, rest: seq<string>, room: int)
    requires |Concat(line)| <= room
    requires rest == [] || |Concat(line)| + |rest[0]| > room
    ensures TakeFitting(line + rest, room) == (line, rest)
  {
    if line == [] {
      assert line + rest == rest;
    } else {
      var cs := line + rest;
      assert cs[0] == line[0] && cs[1..] == line[1..] + rest;
      assert Concat(line) == line[0] + Concat(line[1..]);
      TakeFittingExact(line[1..], rest, room - |line[0]|);
      assert [line[0]] + line[1..] == line;
    }
  }

  /**
   * `FillLine` is greedy: when `line` is the longest run of chunks that
   * fits in `width`, the line is `line` without its last chunk if that
   * chunk is whitespace, and the rest starts with the first chunk that
   * did not fit; only a chunk longer than the whole width is cut instead
   * (see `LongWordCutRule`), and then only one trailing whitespace piece
   * is dropped as well.
   */
  lemma FillLineGreedy(chunks: seq<string>, width: nat, line: seq<string>, rest: seq<string>)
    requires width >= 1 && NonEmptyChunks(chunks) && chunks == line + rest
    requires |Concat(line)| <= width
    requires rest == [] || |Concat(line)| + |rest[0]| > width
    ensures (rest == [] || |rest[0]| <= width) ==>
      FillLine(chunks, width) == Line(if line != [] && IsBlank(line[|line| - 1]) then line[..|line| - 1] else line, rest)
    ensures rest != [] && |rest[0]| > width ==>
      var e := LongWordCut(rest[0], width - |Concat(line)|);
      var cur := line + [rest[0][..e]];
      FillLine(chunks, width) == Line(if IsBlank(cur[|cur| - 1]) then cur[..|cur| - 1] else cur, [rest[0][e..]] + rest[1..])
  {
    TakeFittingExact(line, rest, width);
  }
}

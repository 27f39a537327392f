/**
 * The few pieces of Python's `str` that the application relies on:
 * `str.isspace`, `str.strip`, `str.split(c)` with a one-character
 * separator and `sep.join(items)`, plus Python's `None` as an Option.
 */
module PyStr {

  /** A Python value that may be `None`. */
  datatype Option<T> = None | Some(value: T)

  /** `c.isspace()`: the characters CPython classifies as whitespace. */
  predicate IsSpace(c: char) {
    || ('\t' <= c <= '\r')
    || ('\U{1C}' <= c <= '\U{1F}')
    || c == ' '
    || c == '\U{85}'
    || c == '\U{A0}'
    || c == '\U{1680}'
    || ('\U{2000}' <= c <= '\U{200A}')
    || c == '\U{2028}'
    || c == '\U{2029}'
    || c == '\U{202F}'
    || c == '\U{205F}'
    || c == '\U{3000}'
  }

  /** `s.strip() == ''`: the string holds whitespace only. */
  predicate IsBlank(s: string) {
    forall i :: 0 <= i < |s| ==> IsSpace(s[i])
  }

  /** The characters of `s` that are not whitespace, in order. */
  function NonBlank(s: string): (r: string)
    ensures |r| <= |s|
  {
    if s == [] then []
    else if IsSpace(s[0]) then NonBlank(s[1..])
    else [s[0]] + NonBlank(s[1..])
  }

  lemma {:induction false} NonBlankAppend(a: string, b: string)
    ensures NonBlank(a + b) == NonBlank(a) + NonBlank(b)
  {
    if a != [] {
      var s := a + b;
      assert s[0] == a[0];
      assert s[1..] == a[1..] + b;
      NonBlankAppend(a[1..], b);
      if IsSpace(a[0]) {
        assert NonBlank(s) == NonBlank(s[1..]);
      } else {
        assert NonBlank(s) == [s[0]] + NonBlank(s[1..]);
      }
    } else {
      assert a + b == b;
    }
  }

  lemma {:induction false} NonBlankOfBlank(s: string)
    ensures NonBlank(s) == [] <==> IsBlank(s)
  {
    if s != [] {
      NonBlankOfBlank(s[1..]);
      assert IsBlank(s) <==> IsSpace(s[0]) && IsBlank(s[1..]) by {
        if IsSpace(s[0]) && IsBlank(s[1..]) {
          forall i | 0 <= i < |s| ensures IsSpace(s[i]) {
            if i > 0 { assert s[i] == s[1..][i - 1]; }
          }
        }
      }
    }
  }

  /** `s.lstrip()`: the suffix of `s` left after its leading whitespace, which keeps every visible character. */
  function LStrip(s: string): (r: string)
    ensures |r| <= |s| && r == s[|s| - |r|..]
    ensures r == [] || !IsSpace(r[0])
    ensures NonBlank(r) == NonBlank(s)
  {
    if s != [] && IsSpace(s[0]) then LStrip(s[1..]) else s
  }

  /** `s.rstrip()`: the prefix of `s` left before its trailing whitespace, which keeps every visible character. */
  function RStrip(s: string): (r: string)
    ensures |r| <= |s| && r == s[..|r|]
    ensures r == [] || !IsSpace(r[|r| - 1])
    ensures NonBlank(r) == NonBlank(s)
  {
    if s != [] && IsSpace(s[|s| - 1]) then
      var front := s[..|s| - 1];
      DropLastSpace(s);
      RStrip(front)
    else s
  }

  /** A trailing whitespace character holds nothing visible. */
  lemma DropLastSpace(s: string)
    requires s != [] && IsSpace(s[|s| - 1])
    ensures NonBlank(s) == NonBlank(s[..|s| - 1])
  {
    Snoc([], s);
    NonBlankAppend(s[..|s| - 1], [s[|s| - 1]]);
  }

  /**
   * `s.strip()`: `s` without its leading and trailing whitespace. The
   * result neither starts nor ends with whitespace, keeps every visible
   * character of `s`, and is `s` itself when `s` has no whitespace to cut;
   * `StripIsSlice` says that only the two blank margins are removed.
   */
  function Strip(s: string): (r: string)
    ensures r == [] || (!IsSpace(r[0]) && !IsSpace(r[|r| - 1]))
    ensures NonBlank(r) == NonBlank(s)
    ensures (s == [] || (!IsSpace(s[0]) && !IsSpace(s[|s| - 1]))) ==> r == s
  {
    RStrip(LStrip(s))
  }

  /**
   * `strip` removes a blank margin at each end and nothing else: its
   * result is the slice of `s` between whitespace-only margins.
   */
  lemma StripIsSlice(s: string)
    ensures SliceBetweenBlanks(s, |s| - |LStrip(s)|, Strip(s))
  {
    var t := LStrip(s);
    LStripMargin(s);
    RStripMargin(t);
    StripMargins(s, t, RStrip(t));
  }

  /** `r` is the slice of `s` that starts at `k` and has whitespace only on either side of it. */
  predicate SliceBetweenBlanks(s: string, k: nat, r: string) {
    && k + |r| <= |s| && r == s[k..k + |r|]
    && IsBlank(s[..k]) && IsBlank(s[k + |r|..])
  }

  /** A whitespace character followed by a blank slice is a blank slice. */
  lemma BlankCons(s: string, k: nat)
    requires 0 < k <= |s| && IsSpace(s[0]) && IsBlank(s[1..][..k - 1])
    ensures IsBlank(s[..k])
  {
    assert forall i :: 0 < i < k ==> s[..k][i] == s[1..][..k - 1][i - 1];
  }

  /** A blank slice followed by a final whitespace character is a blank slice. */
  lemma BlankSnoc(s: string, k: nat)
    requires k < |s| && IsSpace(s[|s| - 1]) && IsBlank(s[..|s| - 1][k..])
    ensures IsBlank(s[k..])
  {
    assert forall i :: 0 <= i < |s| - k - 1 ==> s[k..][i] == s[..|s| - 1][k..][i];
  }

  /** What `lstrip` removes is whitespace. */
  lemma {:induction false} LStripMargin(s: string)
    ensures IsBlank(s[..|s| - |LStrip(s)|])
  {
    if s != [] && IsSpace(s[0]) {
      LStripMargin(s[1..]);
      BlankCons(s, |s| - |LStrip(s)|);
    }
  }

  /** What `rstrip` removes is whitespace. */
  lemma {:induction false} RStripMargin(s: string)
    ensures IsBlank(s[|RStrip(s)|..])
  {
    if s != [] && IsSpace(s[|s| - 1]) {
      RStripMargin(s[..|s| - 1]);
      BlankSnoc(s, |RStrip(s)|);
    }
  }

  /** The slice left by `lstrip` and then `rstrip` lies between two blank margins of `s`. */
  lemma StripMargins(s: string, t: string, r: string)
    requires |t| <= |s| && t == s[|s| - |t|..] && IsBlank(s[..|s| - |t|])
    requires |r| <= |t| && r == t[..|r|] && IsBlank(t[|r|..])
    ensures SliceBetweenBlanks(s, |s| - |t|, r)
  {
    var k := |s| - |t|;
    assert t[|r|..] == s[k + |r|..];
  }

  /** Concatenation is associative (stated once, away from other facts, because it needs extensionality). */
  lemma AppendAssoc<T>(a: seq<T>, b: seq<T>, c: seq<T>)
    ensures (a + b) + c == a + (b + c)
  {
  }

  /** A non-empty sequence is its front followed by its last element. */
  lemma Snoc<T>(p: seq<T>, q: seq<T>)
    requires q != []
    ensures q == q[..|q| - 1] + [q[|q| - 1]]
    ensures p + q == (p + q[..|q| - 1]) + [q[|q| - 1]]
  {
    assert q == q[..|q| - 1] + [q[|q| - 1]];
  }

  /** Number of occurrences of `c` in `s`. */
  function Count(c: char, s: string): nat {
    if s == [] then 0 else (if s[0] == c then 1 else 0) + Count(c, s[1..])
  }

  /**
   * `s.split(sep)` for a one-character separator: the pieces between the
   * separators, empty pieces included; `"".split(sep) == [""]`.
   */
  function Split(s: string, sep: char): (parts: seq<string>)
    ensures |parts| == Count(sep, s) + 1
    ensures forall i :: 0 <= i < |parts| ==> sep !in parts[i]
  {
    if s == [] then [[]]
    else if s[0] == sep then [[]] + Split(s[1..], sep)
    else
      var rest := Split(s[1..], sep);
      [[s[0]] + rest[0]] + rest[1..]
  }

  /** `sep.join(parts)` */
  function Join(parts: seq<string>, sep: string): string {
    if parts == [] then []
    else if |parts| == 1 then parts[0]
    else parts[0] + sep + Join(parts[1..], sep)
  }

  /** Splitting undoes joining when no part holds the separator. */
  lemma {:induction false} SplitJoin(parts: seq<string>, sep: char)
    requires |parts| > 0
    requires forall i :: 0 <= i < |parts| ==> sep !in parts[i]
    ensures Split(Join(parts, [sep]), sep) == parts
  {
    if |parts| == 1 {
      SplitNoSep(parts[0], sep);
    } else {
      var tail := Join(parts[1..], [sep]);
      SplitJoin(parts[1..], sep);
      SplitPrefix(parts[0], [sep] + tail, sep);
      assert Join(parts, [sep]) == parts[0] + ([sep] + tail);
      assert ([sep] + tail)[0] == sep;
      assert ([sep] + tail)[1..] == tail;
      var st := Split([sep] + tail, sep);
      assert st == [[]] + parts[1..];
      assert st[0] == [] && st[1..] == parts[1..];
      assert parts[0] + st[0] == parts[0];
      assert parts == [parts[0]] + parts[1..];
    }
  }

  /** Joining undoes splitting. */
  lemma {:induction false} JoinSplit(s: string, sep: char)
    ensures Join(Split(s, sep), [sep]) == s
  {
    if s != [] {
      JoinSplit(s[1..], sep);
      var rest := Split(s[1..], sep);
      if s[0] == sep {
        assert Split(s, sep) == [[]] + rest;
        assert ([[]] + rest)[1..] == rest;
      } else {
        var parts := Split(s, sep);
        assert parts[1..] == rest[1..];
        if |rest| == 1 {
          assert Join(parts, [sep]) == [s[0]] + rest[0];
        } else {
          assert Join(rest, [sep]) == rest[0] + [sep] + Join(rest[1..], [sep]);
          assert Join(parts, [sep]) == [s[0]] + rest[0] + [sep] + Join(rest[1..], [sep]);
        }
        assert s == [s[0]] + s[1..];
      }
    }
  }

  /** A string without the separator splits into itself. */
  lemma {:induction false} SplitNoSep(s: string, sep: char)
    requires sep !in s
    ensures Split(s, sep) == [s]
  {
    if s != [] {
      assert sep !in s[1..];
      SplitNoSep(s[1..], sep);
      assert s == [s[0]] + s[1..];
    }
  }

  /**
   * A prefix without the separator is glued to the first piece of what
   * follows it.
   */
  lemma {:induction false} SplitPrefix(a: string, b: string, sep: char)
    requires sep !in a
    ensures Split(a + b, sep) == [a + Split(b, sep)[0]] + Split(b, sep)[1..]
  {
    if a != [] {
      var s := a + b;
      assert s[1..] == a[1..] + b;
      assert s[0] == a[0] && s[0] != sep;
      assert sep !in a[1..];
      SplitPrefix(a[1..], b, sep);
      var sb := Split(b, sep);
      var rest := Split(s[1..], sep);
      assert rest[0] == a[1..] + sb[0] && rest[1..] == sb[1..];
      assert Split(s, sep) == [[s[0]] + rest[0]] + rest[1..];
      assert a + sb[0] == [a[0]] + (a[1..] + sb[0]);
    } else {
      var sb := Split(b, sep);
      assert a + b == b && a + sb[0] == sb[0];
      assert sb == [sb[0]] + sb[1..];
    }
  }

  /** The head and the tail of a concatenation whose left part is not empty. */
  lemma ConsAppend<T>(s: seq<T>, t: seq<T>)
    requires s != []
    ensures (s + t)[0] == s[0] && (s + t)[1..] == s[1..] + t
  {
    assert (s + t)[1..] == s[1..] + t;
  }

  /** Splitting `a + [sep] + b` splits `a` and `b` independently. */
  lemma {:induction false} SplitAround(a: string, b: string, sep: char)
    ensures Split(a + [sep] + b, sep) == Split(a, sep) + Split(b, sep)
  {
    var sb := Split(b, sep);
    AppendAssoc(a, [sep], b);
    ConsAppend([sep], b);
    assert [sep][1..] + b == b;
    if a == [] {
      assert a + ([sep] + b) == [sep] + b;
    } else {
      ConsAppend(a, [sep] + b);
      AppendAssoc(a[1..], [sep], b);
      SplitAround(a[1..], b, sep);
      var ra := Split(a[1..], sep);
      if a[0] == sep {
        AppendAssoc([[]], ra, sb);
      } else {
        ConsAppend(ra, sb);
        AppendAssoc([[a[0]] + ra[0]], ra[1..], sb);
      }
    }
  }

  /** Stripping only removes characters: a character absent from `s` is absent from `s.strip()`. */
  lemma StripKeepsOut(s: string, c: char)
    requires c !in s
    ensures c !in Strip(s)
  {
    var t := LStrip(s);
    assert t == s[|s| - |t|..];
    assert c !in t;
    var r := RStrip(t);
    assert r == t[..|r|];
  }

  /** Leading whitespace in front of a stripped string is all that `strip` removes. */
  lemma {:induction false} StripBlankPrefix(pad: string, t: string)
    requires IsBlank(pad)
    requires t == [] || (!IsSpace(t[0]) && !IsSpace(t[|t| - 1]))
    ensures Strip(pad + t) == t
  {
    LStripBlankPrefix(pad, t);
  }

  lemma {:induction false} LStripBlankPrefix(pad: string, t: string)
    requires IsBlank(pad)
    requires t == [] || !IsSpace(t[0])
    ensures LStrip(pad + t) == t
  {
    if pad == [] {
      assert pad + t == t;
    } else {
      ConsAppend(pad, t);
      LStripBlankPrefix(pad[1..], t);
    }
  }

  /**
   * Splitting at `sep` what was joined with `sep` followed by a padding
   * without `sep` gives back the parts, each after the first preceded by
   * the padding.
   */
  lemma {:induction false} SplitJoinPadded(parts: seq<string>, sep: char, pad: string)
    requires |parts| > 0 && sep !in pad
    requires forall i :: 0 <= i < |parts| ==> sep !in parts[i]
    ensures var r := Split(Join(parts, [sep] + pad), sep);
      |r| == |parts| && r[0] == parts[0] && forall i :: 1 <= i < |parts| ==> r[i] == pad + parts[i]
  {
    if |parts| == 1 {
      SplitNoSep(parts[0], sep);
    } else {
      var rest := parts[1..];
      var tail := Join(rest, [sep] + pad);
      SplitJoinPadded(rest, sep, pad);
      var st := Split(tail, sep);
      SplitPrefix(pad, tail, sep);
      var sp := Split(pad + tail, sep);
      assert |sp| == |rest| && forall i :: 0 <= i < |rest| ==> sp[i] == pad + rest[i];
      AppendAssoc([sep], pad, tail);
      ConsAppend([sep], pad + tail);
      assert [sep][1..] + (pad + tail) == pad + tail;
      var sj := Split([sep] + (pad + tail), sep);
      assert sj == [[]] + sp;
      AppendAssoc(parts[0], [sep] + pad, tail);
      SplitPrefix(parts[0], [sep] + (pad + tail), sep);
      var r := Split(Join(parts, [sep] + pad), sep);
      assert r == [parts[0] + []] + sp;
      assert parts[0] + [] == parts[0];
    }
  }
}

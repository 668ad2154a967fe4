/** Python string operations restricted to ASCII: whitespace, `strip`, `split`, `join`,
    `readlines`, substring tests and the triple-backtick fence. */
module Text {

  /** `str.isspace()` on ASCII characters: tab, newline, vertical tab, form feed, carriage
      return, the four information separators 0x1C..0x1F, and space. Regex `\s` on a `str`
      pattern matches the same ASCII characters. */
  predicate IsSpace(c: char)
  {
    var n := c as int;
    (9 <= n <= 13) || (28 <= n <= 31) || n == 32
  }

  /** Regex `\w` on ASCII: letters, digits and underscore. */
  predicate IsWordChar(c: char)
  {
    ('a' <= c <= 'z') || ('A' <= c <= 'Z') || ('0' <= c <= '9') || c == '_'
  }

  predicate AllSpace(s: string)
  {
    forall i :: 0 <= i < |s| ==> IsSpace(s[i])
  }

  predicate StartsWith(s: string, prefix: string)
  {
    |prefix| <= |s| && s[..|prefix|] == prefix
  }

  /** `pat` occurs in `s` starting at index `i`. */
  predicate OccursAt(s: string, pat: string, i: int)
  {
    0 <= i <= |s| - |pat| && s[i..i + |pat|] == pat
  }

  /** Python's `pat in s`. */
  predicate Contains(s: string, pat: string)
  {
    exists i :: 0 <= i <= |s| - |pat| && OccursAt(s, pat, i)
  }

  /** Three backticks start at index `i` of `s`. */
  predicate FenceAt(s: string, i: int)
  {
    0 <= i && i + 3 <= |s| && s[i] == '`' && s[i + 1] == '`' && s[i + 2] == '`'
  }

  /** Python's "```" in s. */
  predicate HasFence(s: string)
  {
    exists i :: 0 <= i < |s| && FenceAt(s, i)
  }

  /** `str.lstrip()`. */
  function LStrip(s: string): string
  {
    if |s| > 0 && IsSpace(s[0]) then LStrip(s[1..]) else s
  }

  /** `lstrip()` drops the leading whitespace and nothing else. */
  lemma {:induction false} LStripShape(s: string)
    ensures |LStrip(s)| <= |s| && LStrip(s) == s[|s| - |LStrip(s)|..]
    ensures forall k :: 0 <= k < |s| - |LStrip(s)| ==> IsSpace(s[k])
    ensures |LStrip(s)| > 0 ==> !IsSpace(LStrip(s)[0])
  {
    if |s| > 0 && IsSpace(s[0]) {
      LStripShape(s[1..]);
      assert forall k :: 1 <= k < |s| ==> s[1..][k - 1] == s[k];
    }
  }

  /** `str.rstrip()`. */
  function RStrip(s: string): string
  {
    if |s| > 0 && IsSpace(s[|s| - 1]) then RStrip(s[..|s| - 1]) else s
  }

  /** `rstrip()` drops the trailing whitespace and nothing else. */
  lemma {:induction false} RStripShape(s: string)
    ensures |RStrip(s)| <= |s| && RStrip(s) == s[..|RStrip(s)|]
    ensures forall k :: |RStrip(s)| <= k < |s| ==> IsSpace(s[k])
    ensures |RStrip(s)| > 0 ==> !IsSpace(RStrip(s)[|RStrip(s)| - 1])
  {
    if |s| > 0 && IsSpace(s[|s| - 1]) {
      RStripShape(s[..|s| - 1]);
      assert forall k :: 0 <= k < |s| - 1 ==> s[..|s| - 1][k] == s[k];
    }
  }

  /** `str.strip()`: drops the whitespace at both ends. */
  function Strip(s: string): (r: string)
    ensures |r| > 0 ==> !IsSpace(r[0]) && !IsSpace(r[|r| - 1])
  {
    LStripShape(s);
    RStripShape(LStrip(s));
    var r := RStrip(LStrip(s));
    assert |r| > 0 ==> r[0] == LStrip(s)[0];
    r
  }

  /** Where the infix that `Strip` keeps begins. */
  function StripStart(s: string): nat
  {
    LStripShape(s);
    |s| - |LStrip(s)|
  }

  /** `Strip(s)` is the infix of `s` that starts at `StripStart(s)`, and everything around
      it is whitespace. */
  lemma StripShape(s: string)
    ensures StripStart(s) + |Strip(s)| <= |s|
    ensures Strip(s) == s[StripStart(s)..StripStart(s) + |Strip(s)|]
    ensures forall k :: 0 <= k < StripStart(s) ==> IsSpace(s[k])
    ensures forall k :: StripStart(s) + |Strip(s)| <= k < |s| ==> IsSpace(s[k])
  {
    LStripShape(s);
    RStripShape(LStrip(s));
    var l := LStrip(s);
    var i := |s| - |l|;
    var r := RStrip(l);
    assert l == s[i..];
    assert r == l[..|r|];
    assert r == s[i..i + |r|];
    forall k | i + |r| <= k < |s|
      ensures IsSpace(s[k])
    {
      assert l[k - i] == s[k];
    }
  }

  /** A stripped string contains no fence that its source did not contain. */
  lemma StripKeepsNoFence(s: string)
    requires !HasFence(s)
    ensures !HasFence(Strip(s))
  {
    StripShape(s);
    var r := Strip(s);
    var i := StripStart(s);
    forall m | 0 <= m < |r|
      ensures !FenceAt(r, m)
    {
      assert !FenceAt(s, i + m);
      if m + 2 < |r| {
        assert r[m] == s[i + m] && r[m + 1] == s[i + m + 1] && r[m + 2] == s[i + m + 2];
      }
    }
  }

  /** A text with non-whitespace ends, wrapped in one line break on each side, strips back
      to itself. */
  lemma StripNewlineFrame(x: string)
    requires |x| > 0 && !IsSpace(x[0]) && !IsSpace(x[|x| - 1])
    ensures Strip("\n" + x + "\n") == x
  {
    var t := "\n" + x + "\n";
    assert t[1..] == x + "\n";
    assert LStrip(t) == LStrip(x + "\n");
    assert (x + "\n")[0] == x[0];
    assert LStrip(x + "\n") == x + "\n";
    assert (x + "\n")[..|x|] == x;
    assert RStrip(x + "\n") == RStrip(x);
    assert RStrip(x) == x;
  }

  /** Leading whitespace makes no difference to `strip()`. */
  lemma {:induction false} StripAfterSpace(s: string, j: nat)
    requires j <= |s| && AllSpace(s[..j])
    ensures Strip(s[j..]) == Strip(s)
  {
    if j > 0 {
      assert IsSpace(s[0]);
      assert s[1..][j - 1..] == s[j..];
      assert s[1..][..j - 1] == s[1..j];
      StripAfterSpace(s[1..], j - 1);
    }
  }

  /** First index of `c` in `s`. */
  function IndexOf(s: string, c: char): (i: nat)
    requires c in s
    ensures i < |s| && s[i] == c && c !in s[..i]
  {
    if s[0] == c then 0 else 1 + IndexOf(s[1..], c)
  }

  /** Python's `s.split(sep)` for a one-character separator. */
  function Split(s: string, sep: char): (r: seq<string>)
    ensures |r| >= 1
    ensures forall k :: 0 <= k < |r| ==> sep !in r[k]
    decreases |s|
  {
    if sep !in s then [s]
    else
      var i := IndexOf(s, sep);
      [s[..i]] + Split(s[i + 1..], sep)
  }

  /** Python's `sep.join(parts)`. */
  function Join(parts: seq<string>, sep: string): string
  {
    if |parts| == 0 then ""
    else if |parts| == 1 then parts[0]
    else parts[0] + sep + Join(parts[1..], sep)
  }

  /** Joining one more part appends the separator and the part. */
  lemma {:induction false} JoinSnoc(parts: seq<string>, x: string, sep: string)
    requires |parts| > 0
    ensures Join(parts + [x], sep) == Join(parts, sep) + sep + x
  {
    if |parts| > 1 {
      assert (parts + [x])[1..] == parts[1..] + [x];
      JoinSnoc(parts[1..], x, sep);
    }
  }

  /** Splitting lines without newlines, joined with newlines, gives them back. */
  lemma {:induction false} SplitJoin(lines: seq<string>)
    requires |lines| > 0
    requires forall k :: 0 <= k < |lines| ==> '\n' !in lines[k]
    ensures Split(Join(lines, "\n"), '\n') == lines
  {
    if |lines| == 1 {
    } else {
      var rest := Join(lines[1..], "\n");
      var s := lines[0] + "\n" + rest;
      assert Join(lines, "\n") == s;
      assert s[|lines[0]|] == '\n';
      assert IndexOf(s, '\n') == |lines[0]| by {
        IndexOfIs(s, '\n', |lines[0]|);
      }
      assert s[..|lines[0]|] == lines[0];
      assert s[|lines[0]| + 1..] == rest;
      SplitJoin(lines[1..]);
    }
  }

  lemma {:induction false} IndexOfIs(s: string, c: char, i: nat)
    requires i < |s| && s[i] == c && c !in s[..i]
    ensures c in s && IndexOf(s, c) == i
  {
    if i > 0 {
      assert s[0] == s[..i][0];
      assert s[1..][..i - 1] == s[..i][1..];
      IndexOfIs(s[1..], c, i - 1);
    }
  }

  /** `split` and `join` on the same separator are inverse. */
  lemma {:induction false} JoinSplit(s: string, sep: char)
    ensures Join(Split(s, sep), [sep]) == s
    decreases |s|
  {
    if sep in s {
      var i := IndexOf(s, sep);
      JoinSplit(s[i + 1..], sep);
      assert s == s[..i] + [sep] + s[i + 1..];
    }
  }

  /** Python's `str.splitlines()` for text with `'\n'` as the only line break: unlike
      `split`, a final newline ends the last line instead of starting an empty one. */
  function SplitLines(s: string): (r: seq<string>)
    ensures s == "" <==> r == []
    ensures forall k :: 0 <= k < |r| ==> '\n' !in r[k]
  {
    if s == "" then []
    else if s[|s| - 1] == '\n' then Split(s[..|s| - 1], '\n')
    else Split(s, '\n')
  }

  /** Text that does not end with a newline splits into lines that join back into it. */
  lemma SplitLinesJoin(s: string)
    requires s != "" && s[|s| - 1] != '\n'
    ensures Join(SplitLines(s), "\n") == s
  {
    JoinSplit(s, '\n');
  }

  /** `file.readlines()`: lines that keep their `'\n'` terminator. */
  function ReadLines(s: string): (r: seq<string>)
    ensures forall k :: 0 <= k < |r| ==> |r[k]| > 0
    decreases |s|
  {
    if s == "" then []
    else if '\n' !in s then [s]
    else
      var i := IndexOf(s, '\n');
      [s[..i + 1]] + ReadLines(s[i + 1..])
  }

  /** A line of `readlines`: no newline before its last character. */
  predicate NoInnerNewline(line: string)
  {
    forall j :: 0 <= j < |line| - 1 ==> line[j] != '\n'
  }

  /** `"".join(parts)`. */
  function Concat(parts: seq<string>): string
  {
    if parts == [] then "" else parts[0] + Concat(parts[1..])
  }

  lemma {:induction false} ConcatAppend(a: seq<string>, b: seq<string>)
    ensures Concat(a + b) == Concat(a) + Concat(b)
  {
    if a == [] {
      assert a + b == b;
    } else {
      assert (a + b)[0] == a[0];
      assert (a + b)[1..] == a[1..] + b;
      ConcatAppend(a[1..], b);
    }
  }

  /** `readlines` loses nothing: joining the lines gives back the file text. */
  lemma {:induction false} ConcatReadLines(s: string)
    ensures Concat(ReadLines(s)) == s
    decreases |s|
  {
    if s != "" && '\n' in s {
      var i := IndexOf(s, '\n');
      ConcatReadLines(s[i + 1..]);
      assert s == s[..i + 1] + s[i + 1..];
    }
  }

  /** Every line `readlines` returns, except possibly the last, ends with its newline, and
      no line holds a newline anywhere else. */
  lemma {:induction false} ReadLinesShape(s: string)
    ensures forall k :: 0 <= k < |ReadLines(s)| ==> NoInnerNewline(ReadLines(s)[k])
    ensures forall k :: 0 <= k < |ReadLines(s)| - 1 ==> ReadLines(s)[k][|ReadLines(s)[k]| - 1] == '\n'
    decreases |s|
  {
    if s != "" && '\n' in s {
      var i := IndexOf(s, '\n');
      ReadLinesShape(s[i + 1..]);
      var rest := ReadLines(s[i + 1..]);
      assert ReadLines(s) == [s[..i + 1]] + rest;
      var line := s[..i + 1];
      forall j | 0 <= j < |line| - 1
        ensures line[j] != '\n'
      {
        assert line[j] == s[..i][j];
      }
    }
  }

  /** Python's `s.replace("```", "'''")`: scans left to right and replaces each
      non-overlapping fence by three apostrophes. */
  function ReplaceFences(s: string): (r: string)
    ensures |r| == |s|
    decreases |s|
  {
    if |s| >= 3 && s[0] == '`' && s[1] == '`' && s[2] == '`' then "'''" + ReplaceFences(s[3..])
    else if s == [] then []
    else [s[0]] + ReplaceFences(s[1..])
  }

  /** After the replacement no fence is left, and a leading backtick (or two) of the result
      comes from the same leading backtick(s) of the input. */
  lemma {:induction false} ReplaceFencesRemovesFences(s: string)
    ensures !HasFence(ReplaceFences(s))
    ensures var r := ReplaceFences(s); |r| > 0 && r[0] == '`' ==> s[0] == '`'
    ensures var r := ReplaceFences(s); |r| > 1 && r[0] == '`' && r[1] == '`' ==> s[1] == '`'
    decreases |s|
  {
    var r := ReplaceFences(s);
    if |s| >= 3 && s[0] == '`' && s[1] == '`' && s[2] == '`' {
      var t := ReplaceFences(s[3..]);
      ReplaceFencesRemovesFences(s[3..]);
      assert r == "'''" + t;
      forall m | 0 <= m < |r|
        ensures !FenceAt(r, m)
      {
        if m >= 3 {
          assert !FenceAt(t, m - 3);
          if m + 2 < |r| {
            assert r[m] == t[m - 3] && r[m + 1] == t[m - 2] && r[m + 2] == t[m - 1];
          }
        }
      }
    } else if s != [] {
      var t := ReplaceFences(s[1..]);
      ReplaceFencesRemovesFences(s[1..]);
      assert r == [s[0]] + t;
      assert |t| > 0 ==> r[1] == t[0];
      assert |s| > 1 ==> s[1..][0] == s[1];
      assert |t| > 1 ==> r[2] == t[1];
      assert |s| > 2 ==> s[1..][1] == s[2];
      forall m | 0 <= m < |r|
        ensures !FenceAt(r, m)
      {
        if m > 0 {
          assert !FenceAt(t, m - 1);
          if m + 2 < |r| {
            assert r[m] == t[m - 1] && r[m + 1] == t[m] && r[m + 2] == t[m + 1];
          }
        }
      }
    }
  }

  /** A text without fences passes through the replacement unchanged. */
  lemma {:induction false} ReplaceFencesIdentity(s: string)
    requires !HasFence(s)
    ensures ReplaceFences(s) == s
    decreases |s|
  {
    if s != [] {
      assert !FenceAt(s, 0);
      forall m | 0 <= m < |s[1..]|
        ensures !FenceAt(s[1..], m)
      {
        assert !FenceAt(s, m + 1);
        if m + 2 < |s[1..]| {
          assert s[1..][m] == s[m + 1] && s[1..][m + 1] == s[m + 2] && s[1..][m + 2] == s[m + 3];
        }
      }
      ReplaceFencesIdentity(s[1..]);
    }
  }
}

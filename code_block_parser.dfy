/** `CodeBlockParser` of langchain_output_parser/output_parser.py: pulls the first markdown code
    block out of a model reply with the regex ```(?:\w+)?\s*\n(.*?)``` (flag DOTALL,
    `re.search`), then strips the captured group. */
module CodeBlockParser {
  import opened Base
  import opened Text

  /** What `invoke` is given: a chat message, which has a `content` attribute, or any other
      value, which Python turns into text with `str()` (the rendering is part of the value). */
  datatype Message = WithContent(content: string) | Other(rendered: string)

  /** The dict `{"code": ..., "language": ...}`; `None` stands for Python's `None`. */
  datatype CodeBlock = CodeBlock(code: Option<string>, language: Option<string>)

  lemma WordCharIsNotSpace(c: char)
    ensures !(IsWordChar(c) && IsSpace(c))
  {
  }

  /** End of the longest run of `\w` characters starting at `i`. */
  function WordRunEnd(s: string, i: nat): (j: nat)
    requires i <= |s|
    ensures i <= j <= |s|
    ensures j < |s| ==> !IsWordChar(s[j])
    decreases |s| - i
  {
    if i < |s| && IsWordChar(s[i]) then WordRunEnd(s, i + 1) else i
  }

  /** Everything the word run passes over is a word character. */
  lemma {:induction false} WordRunShape(s: string, i: nat)
    requires i <= |s|
    ensures forall m :: i <= m < WordRunEnd(s, i) ==> IsWordChar(s[m])
    decreases |s| - i
  {
    if i < |s| && IsWordChar(s[i]) {
      WordRunShape(s, i + 1);
    }
  }

  /** A run of word characters that ends on a non-word character is the longest one. */
  lemma {:induction false} WordRunIs(s: string, i: nat, j: nat)
    requires i <= j < |s| && !IsWordChar(s[j])
    requires forall m :: i <= m < j ==> IsWordChar(s[m])
    ensures WordRunEnd(s, i) == j
    decreases j - i
  {
    if i < j {
      WordRunIs(s, i + 1, j);
    }
  }

  /** End of the longest run of `\s` characters starting at `i`. */
  function SpaceRunEnd(s: string, i: nat): (j: nat)
    requires i <= |s|
    ensures i <= j <= |s|
    ensures j < |s| ==> !IsSpace(s[j])
    decreases |s| - i
  {
    if i < |s| && IsSpace(s[i]) then SpaceRunEnd(s, i + 1) else i
  }

  /** Everything the whitespace run passes over is whitespace. */
  lemma {:induction false} SpaceRunShape(s: string, i: nat)
    requires i <= |s|
    ensures forall m :: i <= m < SpaceRunEnd(s, i) ==> IsSpace(s[m])
    decreases |s| - i
  {
    if i < |s| && IsSpace(s[i]) {
      SpaceRunShape(s, i + 1);
    }
  }

  /** The last newline in `s[lo..hi]`: where a greedy `\s*` that backs off one character at a
      time first finds the `\n` the pattern needs. */
  function LastNewline(s: string, lo: nat, hi: nat): (r: Option<nat>)
    requires lo <= hi <= |s|
    ensures r.Some? ==> lo <= r.value < hi && s[r.value] == '\n'
    decreases hi - lo
  {
    if hi == lo then None
    else if s[hi - 1] == '\n' then Some(hi - 1)
    else LastNewline(s, lo, hi - 1)
  }

  /** No newline follows the one found, and none is missed when none is found. */
  lemma {:induction false} LastNewlineShape(s: string, lo: nat, hi: nat)
    requires lo <= hi <= |s|
    ensures LastNewline(s, lo, hi).Some? ==>
      forall m :: LastNewline(s, lo, hi).value < m < hi ==> s[m] != '\n'
    ensures LastNewline(s, lo, hi).None? ==> forall m :: lo <= m < hi ==> s[m] != '\n'
    decreases hi - lo
  {
    if hi > lo && s[hi - 1] != '\n' {
      LastNewlineShape(s, lo, hi - 1);
    }
  }

  /** The first fence at or after `i`: where the lazy `(.*?)` stops. */
  function NextFence(s: string, i: nat): (r: Option<nat>)
    requires i <= |s|
    ensures r.Some? ==> i <= r.value && FenceAt(s, r.value)
    decreases |s| - i
  {
    if i + 3 > |s| then None
    else if FenceAt(s, i) then Some(i)
    else NextFence(s, i + 1)
  }

  /** No fence comes before the one found, and none at all when none is found. */
  lemma {:induction false} NextFenceShape(s: string, i: nat)
    requires i <= |s|
    ensures NextFence(s, i).Some? ==> forall m :: i <= m < NextFence(s, i).value ==> !FenceAt(s, m)
    ensures NextFence(s, i).None? ==> forall m :: i <= m ==> !FenceAt(s, m)
    decreases |s| - i
  {
    if i + 3 <= |s| && !FenceAt(s, i) {
      NextFenceShape(s, i + 1);
    }
  }

  /** A fence with no fence before it, from `i` on, is the next one. */
  lemma {:induction false} NextFenceIs(s: string, i: nat, k: nat)
    requires i <= k && FenceAt(s, k)
    requires forall m :: i <= m < k ==> !FenceAt(s, m)
    ensures NextFence(s, i) == Some(k)
    decreases k - i
  {
    if i < k {
      NextFenceIs(s, i + 1, k);
    }
  }

  /** The pattern read as a language: `s[p..k+3]` is a fence, the word characters `s[p+3..q]`,
      the whitespace `s[q..n]`, the newline `s[n]`, the group `s[n+1..k]` (any characters,
      because of DOTALL) and the closing fence at `k`. */
  ghost predicate PatternMatch(s: string, p: nat, q: nat, n: nat, k: nat)
  {
    && FenceAt(s, p) && p + 3 <= q <= n < k && FenceAt(s, k)
    && (forall m :: p + 3 <= m < q ==> IsWordChar(s[m]))
    && (forall m :: q <= m < n ==> IsSpace(s[m]))
    && s[n] == '\n'
  }

  /** Some match of the pattern starts at `p`. */
  ghost predicate MatchesAt(s: string, p: nat)
  {
    exists q: nat, n: nat, k: nat :: PatternMatch(s, p, q, n, k)
  }

  /** The match the backtracking engine finds at `p`, as the pair (newline, closing fence):
      `(?:\w+)?` takes the whole word run (giving characters back never helps, since `\s*\n`
      cannot start on a word character), `\s*` takes the whole whitespace run and backs off to
      its last newline, and `(.*?)` stops at the first fence after it. */
  function MatchAt(s: string, p: nat): (r: Option<(nat, nat)>)
    requires p <= |s|
    ensures r.Some? ==> p + 3 <= r.value.0 < r.value.1 && r.value.1 + 3 <= |s|
  {
    if !FenceAt(s, p) then None
    else
      var q := WordRunEnd(s, p + 3);
      var e := SpaceRunEnd(s, q);
      match LastNewline(s, q, e)
      case None => None
      case Some(n) =>
        match NextFence(s, n + 1)
        case None => None
        case Some(k) => Some((n, k))
  }

  /** What `MatchAt` finds is a match of the pattern, and the lazy group in it holds no fence. */
  lemma MatchAtSound(s: string, p: nat)
    requires p <= |s|
    ensures MatchAt(s, p).Some? ==>
      var (n, k) := MatchAt(s, p).value;
      && PatternMatch(s, p, WordRunEnd(s, p + 3), n, k)
      && forall m :: n < m < k ==> !FenceAt(s, m)
    ensures MatchAt(s, p).Some? ==> MatchesAt(s, p)
  {
    if MatchAt(s, p).Some? {
      var (n, k) := MatchAt(s, p).value;
      var q := WordRunEnd(s, p + 3);
      WordRunShape(s, p + 3);
      SpaceRunShape(s, q);
      NextFenceShape(s, n + 1);
      assert PatternMatch(s, p, q, n, k);
    }
  }

  /** Every match of the pattern at `p` is found, and the one found has the latest newline
      (greedy `\s*`); with `MatchAtSound` this is the engine's choice at `p`. */
  lemma MatchAtComplete(s: string, p: nat, q: nat, n: nat, k: nat)
    requires p <= |s|
    ensures PatternMatch(s, p, q, n, k) ==> MatchAt(s, p).Some? && n <= MatchAt(s, p).value.0
  {
    if PatternMatch(s, p, q, n, k) {
      var q0 := WordRunEnd(s, p + 3);
      WordRunShape(s, p + 3);
      assert IsSpace(s[q]);
      WordCharIsNotSpace(s[q]);
      assert q0 < |s| ==> !IsWordChar(s[q0]);
      assert q == q0;
      var e := SpaceRunEnd(s, q);
      SpaceRunShape(s, q);
      assert n < e;
      var last := LastNewline(s, q, e);
      LastNewlineShape(s, q, e);
      assert last.Some? && n <= last.value;
      assert !IsSpace(s[k]);
      assert last.value < k;
      NextFenceShape(s, last.value + 1);
    }
  }

  /** The leftmost match at or after `p`, as (start, newline, closing fence). */
  function Search(s: string, p: nat): (r: Option<(nat, nat, nat)>)
    requires p <= |s|
    ensures r.Some? ==> p <= r.value.0 <= |s| && MatchAt(s, r.value.0) == Some((r.value.1, r.value.2))
    ensures r.Some? ==> forall p' :: p <= p' < r.value.0 ==> MatchAt(s, p').None?
    ensures r.None? ==> forall p' :: p <= p' <= |s| ==> MatchAt(s, p').None?
    decreases |s| - p
  {
    if p + 3 > |s| then None
    else
      match MatchAt(s, p)
      case Some((n, k)) => Some((p, n, k))
      case None => Search(s, p + 1)
  }

  /** The regex search followed by `match.group(1).strip()`. */
  function Extract(text: string): CodeBlock
  {
    match Search(text, 0)
    case None => CodeBlock(None, None)
    case Some((_, n, k)) => CodeBlock(Some(Strip(text[n + 1..k])), Some("unknown"))
  }

  /** `CodeBlockParser.invoke`: the text is `message.content` when the message has one,
      `str(message)` otherwise. */
  function Invoke(message: Message): (r: CodeBlock)
    ensures r.code.None? <==> r.language.None?
    ensures r.language.Some? ==> r.language.value == "unknown"
    ensures r.code.Some? ==> !HasFence(r.code.value)
    ensures r.code.Some? && |r.code.value| > 0 ==>
      !IsSpace(r.code.value[0]) && !IsSpace(r.code.value[|r.code.value| - 1])
  {
    var text := match message
      case WithContent(c) => c
      case Other(rendered) => rendered;
    ExtractedCodeHasNoFence(text);
    Extract(text)
  }

  /** `CodeBlockParser.parse`: hands a plain string to `invoke`; a string has no `content`
      attribute and `str()` leaves it as it is. */
  function Parse(text: string): (r: CodeBlock)
    ensures r == Invoke(WithContent(text))
  {
    Invoke(Other(text))
  }

  /** No code is extracted exactly when the pattern matches nowhere in the text. */
  lemma {:induction false} ExtractNoneIffNoMatch(text: string)
    ensures Extract(text).code.None? <==> forall p: nat :: !MatchesAt(text, p)
    ensures Extract(text).code.None? ==> Extract(text).language.None?
  {
    match Search(text, 0)
    case None =>
      forall p: nat
        ensures !MatchesAt(text, p)
      {
        forall q: nat, n: nat, k: nat
          ensures !PatternMatch(text, p, q, n, k)
        {
          if p <= |text| {
            MatchAtComplete(text, p, q, n, k);
          }
        }
      }
    case Some((p, n, k)) =>
      MatchAtSound(text, p);
      assert MatchesAt(text, p);
  }

  /** When some match exists, the code is the stripped group of the match Python's engine
      reports: the leftmost start, the greedy whitespace run and the lazy group. */
  lemma ExtractIsLeftmostMatch(text: string, p: nat, q: nat, n: nat, k: nat)
    requires PatternMatch(text, p, q, n, k)
    requires forall p': nat :: p' < p ==> !MatchesAt(text, p')
    requires forall q': nat, n': nat, k': nat :: PatternMatch(text, p, q', n', k') ==> n' <= n
    requires forall m :: n < m < k ==> !FenceAt(text, m)
    ensures Extract(text) == CodeBlock(Some(Strip(text[n + 1..k])), Some("unknown"))
  {
    MatchAtComplete(text, p, q, n, k);
    assert MatchAt(text, p) == Some((n, k)) by {
      MatchAtSound(text, p);
      NextFenceIs(text, MatchAt(text, p).value.0 + 1, k);
    }
    assert forall p' :: 0 <= p' < p ==> MatchAt(text, p').None? by {
      forall p' | 0 <= p' < p
        ensures MatchAt(text, p').None?
      {
        MatchAtSound(text, p');
      }
    }
    FirstMatchIsExtracted(text, p, n, k);
  }

  /** The extracted code never contains a fence: the lazy group stops at the first one, and
      stripping only removes characters. */
  lemma ExtractedCodeHasNoFence(text: string)
    ensures Extract(text).code.Some? ==> !HasFence(Extract(text).code.value)
  {
    match Search(text, 0)
    case None =>
    case Some((p, n, k)) =>
      MatchAtSound(text, p);
      var g := text[n + 1..k];
      forall m | 0 <= m < |g|
        ensures !FenceAt(g, m)
      {
        assert !FenceAt(text, n + 1 + m);
        if m + 2 < |g| {
          assert g[m] == text[n + 1 + m] && g[m + 1] == text[n + 2 + m] && g[m + 2] == text[n + 3 + m];
        }
      }
      StripKeepsNoFence(g);
  }

  /** Without a fence, or without a newline, nothing can match. */
  lemma NoFenceOrNoNewlineMeansNoCode(text: string)
    requires !HasFence(text) || '\n' !in text
    ensures Extract(text) == CodeBlock(None, None)
  {
    match Search(text, 0)
    case None =>
    case Some((p, n, k)) =>
      MatchAtSound(text, p);
      assert false;
  }

  /** `s` is `prefix + "```" + lang + "\n" + body + "```"`, spelled out index by index. */
  ghost predicate LaidOut(s: string, prefix: string, lang: string, body: string)
  {
    var a := |prefix|;
    var b0 := a + |lang| + 4;
    && |s| == b0 + |body| + 3
    && s[..a] == prefix
    && FenceAt(s, a)
    && (forall j :: 0 <= j < |lang| ==> s[a + 3 + j] == lang[j])
    && s[b0 - 1] == '\n'
    && (forall j :: 0 <= j < |body| ==> s[b0 + j] == body[j])
    && FenceAt(s, b0 + |body|)
  }

  lemma Layout(prefix: string, lang: string, body: string)
    ensures LaidOut(prefix + "```" + lang + "\n" + body + "```", prefix, lang, body)
  {
    var s := prefix + "```" + lang + "\n" + body + "```";
    LayoutOpening(s, prefix, lang, body);
    LayoutTag(s, prefix, lang, body);
    LayoutBody(s, prefix, lang, body);
  }

  /** The prefix and the opening fence. */
  lemma LayoutOpening(s: string, prefix: string, lang: string, body: string)
    requires s == prefix + "```" + lang + "\n" + body + "```"
    ensures |s| == |prefix| + |lang| + 4 + |body| + 3
    ensures s[..|prefix|] == prefix && FenceAt(s, |prefix|)
  {
    var head := prefix + "```";
    var hl := head + lang;
    var tag := hl + "\n";
    var sb := tag + body;
    var a := |prefix|;
    assert s[..a] == prefix by {
      assert head[..a] == prefix;
      assert hl[..a] == head[..a];
      assert tag[..a] == hl[..a];
      assert sb[..a] == tag[..a];
      assert s[..a] == sb[..a];
    }
    forall i | a <= i < a + 3
      ensures s[i] == '`'
    {
      assert head[i] == '`';
      assert s[i] == sb[i] == tag[i] == hl[i] == head[i];
    }
  }

  /** The language tag and the line break that ends the opening line. */
  lemma LayoutTag(s: string, prefix: string, lang: string, body: string)
    requires s == prefix + "```" + lang + "\n" + body + "```"
    ensures forall j :: 0 <= j < |lang| ==> s[|prefix| + 3 + j] == lang[j]
    ensures s[|prefix| + |lang| + 3] == '\n'
  {
    var head := prefix + "```";
    var hl := head + lang;
    var tag := hl + "\n";
    var sb := tag + body;
    var a := |prefix|;
    forall j | 0 <= j < |lang|
      ensures s[a + 3 + j] == lang[j]
    {
      var i := a + 3 + j;
      assert hl[i] == lang[j];
      assert s[i] == sb[i] == tag[i] == hl[i];
    }
    var e := a + |lang| + 3;
    assert tag[e] == '\n';
    assert s[e] == sb[e] == tag[e];
  }

  /** The body and the closing fence. */
  lemma LayoutBody(s: string, prefix: string, lang: string, body: string)
    requires s == prefix + "```" + lang + "\n" + body + "```"
    ensures forall j :: 0 <= j < |body| ==> s[|prefix| + |lang| + 4 + j] == body[j]
    ensures FenceAt(s, |prefix| + |lang| + 4 + |body|)
  {
    var tag := prefix + "```" + lang + "\n";
    Pieces(s, tag, body, "```");
  }

  /** The characters of `u + v + w`, piece by piece. */
  lemma Pieces(s: string, u: string, v: string, w: string)
    requires s == u + v + w
    ensures |s| == |u| + |v| + |w|
    ensures forall k :: 0 <= k < |u| ==> s[k] == u[k]
    ensures forall j :: 0 <= j < |v| ==> s[|u| + j] == v[j]
    ensures forall j :: 0 <= j < |w| ==> s[|u| + |v| + j] == w[j]
  {
  }

  /** No match can start inside a prefix that holds no fence, even where the prefix's last
      backticks run into the opening fence. */
  lemma NoMatchInsidePrefix(s: string, prefix: string, p: nat)
    requires !HasFence(prefix) && |prefix| + 3 < |s| && s[..|prefix|] == prefix
    requires FenceAt(s, |prefix|) && s[|prefix| + 3] != '`'
    requires p < |prefix|
    ensures MatchAt(s, p).None?
  {
    var a := |prefix|;
    if p + 3 <= a {
      assert !FenceAt(prefix, p);
      assert s[p] == prefix[p] && s[p + 1] == prefix[p + 1] && s[p + 2] == prefix[p + 2];
    } else {
      assert s[p + 3] == '`';
      assert WordRunEnd(s, p + 3) == p + 3;
      assert SpaceRunEnd(s, p + 3) == p + 3;
    }
  }

  /** The body holds no fence, and the closing fence cannot start early on a trailing
      backtick of the body. */
  lemma NoFenceBeforeClosing(s: string, prefix: string, lang: string, body: string)
    requires LaidOut(s, prefix, lang, body)
    requires !HasFence(body) && (|body| > 0 ==> body[|body| - 1] != '`')
    ensures var b0 := |prefix| + |lang| + 4;
      forall m :: b0 <= m < b0 + |body| ==> !FenceAt(s, m)
  {
    var b0 := |prefix| + |lang| + 4;
    var k := b0 + |body|;
    forall m | b0 <= m < k
      ensures !FenceAt(s, m)
    {
      if m + 3 <= k {
        assert !FenceAt(body, m - b0);
        assert s[m] == body[m - b0] && s[m + 1] == body[m - b0 + 1] && s[m + 2] == body[m - b0 + 2];
      } else {
        assert s[k - 1] == body[|body| - 1];
      }
    }
  }

  /** At the opening fence the engine matches up to the closing fence, with its newline in
      the whitespace that starts at the language tag's end. */
  lemma OpeningFenceMatch(s: string, prefix: string, lang: string, body: string)
    requires LaidOut(s, prefix, lang, body)
    requires forall i :: 0 <= i < |lang| ==> IsWordChar(lang[i])
    requires !HasFence(body) && (|body| > 0 ==> body[|body| - 1] != '`')
    ensures var b0 := |prefix| + |lang| + 4; var r := MatchAt(s, |prefix|);
      && r.Some? && r.value.1 == b0 + |body| && b0 - 1 <= r.value.0
      && forall i :: b0 <= i <= r.value.0 ==> IsSpace(s[i])
  {
    var a := |prefix|;
    var q := a + 3 + |lang|;
    var k := q + 1 + |body|;
    var n := OpeningSteps(s, prefix, lang, body);
    MatchAtIs(s, a, q, n, k);
  }

  /** The three steps of the engine at the opening fence, each on its own. */
  lemma OpeningSteps(s: string, prefix: string, lang: string, body: string) returns (n: nat)
    requires LaidOut(s, prefix, lang, body)
    requires forall i :: 0 <= i < |lang| ==> IsWordChar(lang[i])
    requires !HasFence(body) && (|body| > 0 ==> body[|body| - 1] != '`')
    ensures var q := |prefix| + 3 + |lang|; var k := q + 1 + |body|;
      && WordRunEnd(s, |prefix| + 3) == q
      && q <= n < k && LastNewline(s, q, SpaceRunEnd(s, q)) == Some(n)
      && (forall i :: q < i <= n ==> IsSpace(s[i]))
      && NextFence(s, n + 1) == Some(k)
  {
    TagIsWordRun(s, prefix, lang, body);
    n := NewlineEndsTag(s, prefix, lang, body);
    ClosingFenceFollows(s, prefix, lang, body, n);
  }

  /** The language tag is the whole word run after the opening fence. */
  lemma TagIsWordRun(s: string, prefix: string, lang: string, body: string)
    requires LaidOut(s, prefix, lang, body)
    requires forall i :: 0 <= i < |lang| ==> IsWordChar(lang[i])
    ensures WordRunEnd(s, |prefix| + 3) == |prefix| + 3 + |lang|
  {
    var a := |prefix|;
    var q := a + 3 + |lang|;
    forall j | a + 3 <= j < q ensures IsWordChar(s[j]) {
      assert s[a + 3 + (j - a - 3)] == lang[j - a - 3];
    }
    assert s[q] == '\n';
    WordRunIs(s, a + 3, q);
  }

  /** The whitespace run after the tag starts with the newline and stops before the closing
      fence, so it holds a last newline. */
  lemma NewlineEndsTag(s: string, prefix: string, lang: string, body: string) returns (n: nat)
    requires LaidOut(s, prefix, lang, body)
    ensures var q := |prefix| + 3 + |lang|;
      && q <= n < q + 1 + |body| && LastNewline(s, q, SpaceRunEnd(s, q)) == Some(n)
      && forall i :: q < i <= n ==> IsSpace(s[i])
  {
    var q := |prefix| + 3 + |lang|;
    var k := q + 1 + |body|;
    assert IsSpace(s[q]);
    assert !IsSpace(s[k]);
    SpaceRunShape(s, q);
    LastNewlineShape(s, q, SpaceRunEnd(s, q));
    n := LastNewline(s, q, SpaceRunEnd(s, q)).value;
  }

  /** From the newline the lazy group runs to the closing fence. */
  lemma ClosingFenceFollows(s: string, prefix: string, lang: string, body: string, n: nat)
    requires LaidOut(s, prefix, lang, body)
    requires !HasFence(body) && (|body| > 0 ==> body[|body| - 1] != '`')
    requires |prefix| + 3 + |lang| <= n < |prefix| + 4 + |lang| + |body|
    ensures NextFence(s, n + 1) == Some(|prefix| + 4 + |lang| + |body|)
  {
    NoFenceBeforeClosing(s, prefix, lang, body);
    NextFenceIs(s, n + 1, |prefix| + 4 + |lang| + |body|);
  }

  /** `MatchAt` assembled from its four steps. */
  lemma MatchAtIs(s: string, p: nat, q: nat, n: nat, k: nat)
    requires p + 3 <= |s| && FenceAt(s, p) && WordRunEnd(s, p + 3) == q
    requires LastNewline(s, q, SpaceRunEnd(s, q)) == Some(n)
    requires NextFence(s, n + 1) == Some(k)
    ensures MatchAt(s, p) == Some((n, k))
  {
  }

  /** The group of that match, once stripped, is the stripped body. */
  lemma GroupStripsToBody(s: string, prefix: string, lang: string, body: string, n: nat)
    requires LaidOut(s, prefix, lang, body)
    requires var b0 := |prefix| + |lang| + 4;
      b0 - 1 <= n < b0 + |body| + 1 && forall i :: b0 <= i <= n ==> IsSpace(s[i])
    ensures Strip(s[n + 1..|prefix| + |lang| + 4 + |body|]) == Strip(body)
  {
    var b0 := |prefix| + |lang| + 4;
    var k := b0 + |body|;
    var j := n + 1 - b0;
    var g := s[n + 1..k];
    assert |g| == |body| - j;
    forall i | 0 <= i < |g|
      ensures g[i] == body[j + i]
    {
      assert g[i] == s[b0 + (j + i)];
    }
    assert g == body[j..];
    forall i | 0 <= i < j
      ensures IsSpace(body[..j][i])
    {
      assert body[..j][i] == s[b0 + i];
    }
    StripAfterSpace(body, j);
  }

  /** The leftmost match found by the search is the one `Extract` reports. */
  lemma ExtractReportsSearch(s: string)
    ensures Search(s, 0).Some? ==>
      Extract(s) == CodeBlock(Some(Strip(s[Search(s, 0).value.1 + 1..Search(s, 0).value.2])), Some("unknown"))
  {
  }

  /** A match with none before it is the one the search finds. */
  lemma SearchFindsFirstMatch(s: string, a: nat, n: nat, k: nat)
    requires a <= |s| && MatchAt(s, a) == Some((n, k))
    requires forall p :: 0 <= p < a ==> MatchAt(s, p).None?
    ensures Search(s, 0) == Some((a, n, k))
  {
    var r := Search(s, 0);
    assert r.Some?;
    assert r.value.0 == a;
  }

  /** A match with none before it is what `Extract` reports. */
  lemma FirstMatchIsExtracted(s: string, a: nat, n: nat, k: nat)
    requires a <= |s| && MatchAt(s, a) == Some((n, k))
    requires forall p :: 0 <= p < a ==> MatchAt(s, p).None?
    ensures n + 1 <= k <= |s|
    ensures Extract(s) == CodeBlock(Some(Strip(s[n + 1..k])), Some("unknown"))
  {
    SearchFindsFirstMatch(s, a, n, k);
    ExtractReportsSearch(s);
  }

  /** No match starts before the opening fence. */
  lemma NoMatchBeforeOpening(s: string, prefix: string, lang: string, body: string)
    requires LaidOut(s, prefix, lang, body)
    requires !HasFence(prefix)
    requires forall i :: 0 <= i < |lang| ==> IsWordChar(lang[i])
    ensures forall p :: 0 <= p < |prefix| ==> MatchAt(s, p).None?
  {
    var a := |prefix|;
    assert s[a + 3] != '`' by {
      if |lang| > 0 {
        assert s[a + 3 + 0] == lang[0];
      }
    }
    forall p | 0 <= p < a
      ensures MatchAt(s, p).None?
    {
      NoMatchInsidePrefix(s, prefix, p);
    }
  }

  /** The same, for a string already known to have that layout. */
  lemma LaidOutBlockGivesStrippedBody(s: string, prefix: string, lang: string, body: string)
    requires LaidOut(s, prefix, lang, body)
    requires !HasFence(prefix) && !HasFence(body)
    requires forall i :: 0 <= i < |lang| ==> IsWordChar(lang[i])
    requires |body| > 0 ==> body[|body| - 1] != '`'
    ensures Extract(s) == CodeBlock(Some(Strip(body)), Some("unknown"))
  {
    var a := |prefix|;
    OpeningFenceMatch(s, prefix, lang, body);
    var (n, k) := MatchAt(s, a).value;
    NoMatchBeforeOpening(s, prefix, lang, body);
    FirstMatchIsExtracted(s, a, n, k);
    GroupStripsToBody(s, prefix, lang, body, n);
  }

  /** A block tagged with a language of word characters, placed after a prefix without fences,
      gives back its stripped body, provided the body holds no fence and does not end in a
      backtick (one that would join the closing fence and end the lazy group early). */
  lemma FencedBlockGivesStrippedBody(prefix: string, lang: string, body: string)
    requires !HasFence(prefix) && !HasFence(body)
    requires forall i :: 0 <= i < |lang| ==> IsWordChar(lang[i])
    requires |body| > 0 ==> body[|body| - 1] != '`'
    ensures Extract(prefix + "```" + lang + "\n" + body + "```")
      == CodeBlock(Some(Strip(body)), Some("unknown"))
  {
    Layout(prefix, lang, body);
    LaidOutBlockGivesStrippedBody(prefix + "```" + lang + "\n" + body + "```", prefix, lang, body);
  }
}

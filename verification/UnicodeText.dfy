/** White space, trimming and word splitting over Unicode scalar values. */
module UnicodeText {
  /** Unicode white space. */
  predicate IsWhitespace(c: char) {
    var n := c as int;
    || 0x09 <= n <= 0x0d || n == 0x20 || n == 0x85 || n == 0xa0 || n == 0x1680
    || 0x2000 <= n <= 0x200a || n == 0x2028 || n == 0x2029 || n == 0x202f || n == 0x205f || n == 0x3000
  }

  predicate IsControl(c: char) {
    var n := c as int;
    n < 0x20 || 0x7f <= n <= 0x9f
  }

  function TrimStart(s: string): string {
    if s != "" && IsWhitespace(s[0]) then TrimStart(s[1..]) else s
  }

  function TrimEnd(s: string): string {
    if s != "" && IsWhitespace(s[|s| - 1]) then TrimEnd(s[..|s| - 1]) else s
  }

  function Trim(s: string): string {
    TrimEnd(TrimStart(s))
  }

  /** How many characters come before the first white space. */
  function WordLength(s: string): (n: nat)
    ensures n <= |s|
    ensures forall c :: c in s[..n] ==> !IsWhitespace(c)
    ensures n < |s| ==> IsWhitespace(s[n])
  {
    if s == "" || IsWhitespace(s[0]) then 0 else 1 + WordLength(s[1..])
  }

  /** The words of a text. */
  function SplitWhitespace(s: string): (words: seq<string>)
    ensures forall w :: w in words ==> w != "" && forall c :: c in w ==> !IsWhitespace(c)
    decreases |s|
  {
    if s == "" then []
    else if IsWhitespace(s[0]) then SplitWhitespace(s[1..])
    else [s[..WordLength(s)]] + SplitWhitespace(s[WordLength(s)..])
  }

  // ---- what the words are -----------------------------------------------------

  datatype Span = Span(from: nat, to: nat)

  /** A stretch without white space that no character beside it would lengthen. */
  predicate IsStretch(s: string, w: Span) {
    && w.from < w.to <= |s|
    && (forall k :: w.from <= k < w.to ==> !IsWhitespace(s[k]))
    && (w.from > 0 ==> IsWhitespace(s[w.from - 1]))
    && (w.to < |s| ==> IsWhitespace(s[w.to]))
  }

  /** The spans are the stretches of `s` from `start` on, each once and from left to right. */
  ghost predicate AreStretches(s: string, start: nat, spans: seq<Span>) {
    && (forall k :: 0 <= k < |spans| ==> IsStretch(s, spans[k]) && start <= spans[k].from)
    && (forall j, k :: 0 <= j < k < |spans| ==> spans[j].to < spans[k].from)
    && (forall w :: IsStretch(s, w) && start <= w.from ==> w in spans)
  }

  /** The words are the texts of the spans, in order. */
  ghost predicate TextsOf(s: string, spans: seq<Span>, words: seq<string>) {
    && |words| == |spans|
    && forall k :: 0 <= k < |spans| ==>
      var w := spans[k]; w.from <= w.to <= |s| && words[k] == s[w.from..w.to]
  }

  /** Splitting lists every longest stretch without white space, once and in order, and nothing else. */
  lemma WordsAreTheStretches(s: string) returns (spans: seq<Span>)
    ensures AreStretches(s, 0, spans) && TextsOf(s, spans, SplitWhitespace(s))
  {
    assert s[0..] == s;
    spans := StretchesFrom(s, 0, SplitWhitespace(s));
  }

  /** Where a stretch may start. */
  predicate MayStart(s: string, i: nat) {
    0 < i < |s| ==> IsWhitespace(s[i - 1]) || IsWhitespace(s[i])
  }

  lemma {:induction false} StretchesFrom(s: string, i: nat, words: seq<string>) returns (spans: seq<Span>)
    requires i <= |s| && MayStart(s, i) && words == SplitWhitespace(s[i..])
    ensures AreStretches(s, i, spans) && TextsOf(s, spans, words)
    decreases |s| - i
  {
    if i == |s| {
      spans := [];
    } else if IsWhitespace(s[i]) {
      SkipOne(s, i);
      spans := StretchesFrom(s, i + 1, words);
      NoneHere(s, i, spans);
    } else {
      var end, tail := TakeOne(s, i, words);
      var rest := StretchesFrom(s, end, tail);
      StretchThen(s, i, Span(i, end), rest);
      TextThen(s, Span(i, end), rest, tail);
      spans := [Span(i, end)] + rest;
    }
  }

  lemma SkipOne(s: string, i: nat)
    requires i < |s| && IsWhitespace(s[i])
    ensures SplitWhitespace(s[i..]) == SplitWhitespace(s[i + 1..])
  {
    assert s[i..][1..] == s[i + 1..];
  }

  lemma NoneHere(s: string, i: nat, spans: seq<Span>)
    requires i < |s| && IsWhitespace(s[i]) && AreStretches(s, i + 1, spans)
    ensures AreStretches(s, i, spans)
  {
  }

  /** The next word, what the words after it are, and that it is the only stretch before its end. */
  lemma TakeOne(s: string, i: nat, words: seq<string>) returns (end: nat, tail: seq<string>)
    requires i < |s| && MayStart(s, i) && !IsWhitespace(s[i]) && words == SplitWhitespace(s[i..])
    ensures i < end <= |s| && MayStart(s, end) && IsStretch(s, Span(i, end))
    ensures forall w :: IsStretch(s, w) && i <= w.from < end ==> w == Span(i, end)
    ensures tail == SplitWhitespace(s[end..]) && words == [s[i..end]] + tail
  {
    var n := WordLength(s[i..]);
    end, tail := i + n, SplitWhitespace(s[i + n..]);
    FirstStretch(s, i, n);
    assert s[i..][n..] == s[end..] && s[i..][..n] == s[i..end];
  }

  /** A word that starts where a stretch may is a stretch, and the only one before its end. */
  lemma FirstStretch(s: string, i: nat, n: nat)
    requires i < |s| && !IsWhitespace(s[i]) && (i > 0 ==> IsWhitespace(s[i - 1]))
    requires n == WordLength(s[i..]) > 0
    ensures IsStretch(s, Span(i, i + n))
    ensures forall w :: IsStretch(s, w) && i <= w.from < i + n ==> w == Span(i, i + n)
  {
    forall k | i <= k < i + n
      ensures !IsWhitespace(s[k])
    {
      assert s[i..][..n][k - i] == s[k];
    }
    assert i + n < |s| ==> s[i..][n] == s[i + n];
  }

  lemma StretchThen(s: string, start: nat, first: Span, rest: seq<Span>)
    requires IsStretch(s, first) && start <= first.from && AreStretches(s, first.to, rest)
    requires forall w :: IsStretch(s, w) && start <= w.from < first.to ==> w == first
    ensures AreStretches(s, start, [first] + rest)
  {
    var spans := [first] + rest;
    assert forall k :: 0 <= k < |rest| ==> IsStretch(s, rest[k]) && first.to < rest[k].from;
    forall w | IsStretch(s, w) && start <= w.from
      ensures w in spans
    {
      if w.from < first.to {
        assert spans[0] == w;
      } else {
        assert w in rest;
      }
    }
  }

  lemma TextThen(s: string, first: Span, rest: seq<Span>, words: seq<string>)
    requires first.from <= first.to <= |s| && TextsOf(s, rest, words)
    ensures TextsOf(s, [first] + rest, [s[first.from..first.to]] + words)
  {
    var spans, texts := [first] + rest, [s[first.from..first.to]] + words;
    forall k | 0 <= k < |spans|
      ensures var w := spans[k]; w.from <= w.to <= |s| && texts[k] == s[w.from..w.to]
    {
      if k > 0 {
        assert spans[k] == rest[k - 1] && texts[k] == words[k - 1];
      }
    }
  }
}

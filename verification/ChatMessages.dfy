/**
Streamed chat text under its size cap (`push_capped_message_text`,
`append_chat_delta`). Text is UTF-8 bytes, as the original stores it.
*/
module ChatMessages {
  import opened Primitives
  import opened ProjectModel

  const MAX_MESSAGE_BYTES := 65536
  /** Line feed, then `[truncated]`. */
  const NOTICE: seq<byte> := [0x0a, 0x5b, 0x74, 0x72, 0x75, 0x6e, 0x63, 0x61, 0x74, 0x65, 0x64, 0x5d]
  const CONTENT_LIMIT := MAX_MESSAGE_BYTES - 12

  // ---- UTF-8 ----------------------------------------------------------------

  predicate IsContinuation(b: byte) {
    0x80 <= b < 0xc0
  }

  /** Bytes of the character a lead byte starts; zero for a byte that starts none. */
  function CharWidth(lead: byte): nat {
    if lead < 0x80 then 1
    else if lead < 0xc0 then 0
    else if lead < 0xe0 then 2
    else if lead < 0xf0 then 3
    else if lead < 0xf8 then 4
    else 0
  }

  /** The first character is whole: its lead byte is followed by its continuation bytes. */
  predicate StartsWhole(s: seq<byte>)
    requires s != []
  {
    var w := CharWidth(s[0]);
    1 <= w <= |s| && forall i :: 1 <= i < w ==> IsContinuation(s[i])
  }

  /** Whole characters only. */
  predicate IsUtf8(s: seq<byte>) {
    s == [] || (StartsWhole(s) && IsUtf8(s[CharWidth(s[0])..]))
  }

  /** `str::is_char_boundary`. */
  predicate IsBoundary(s: seq<byte>, k: nat) {
    k == 0 || k == |s| || (k < |s| && !IsContinuation(s[k]))
  }

  lemma FirstCharacterStays(a: seq<byte>, b: seq<byte>)
    requires a != [] && StartsWhole(a)
    ensures a + b != [] && (a + b)[0] == a[0] && StartsWhole(a + b)
    ensures (a + b)[CharWidth(a[0])..] == a[CharWidth(a[0])..] + b
  {
  }

  lemma {:induction false} Utf8Append(a: seq<byte>, b: seq<byte>)
    requires IsUtf8(a) && IsUtf8(b)
    ensures IsUtf8(a + b)
    decreases |a|
  {
    if a == [] {
      assert a + b == b;
    } else {
      Utf8Append(a[CharWidth(a[0])..], b);
      FirstCharacterStays(a, b);
    }
  }

  /** Cutting at a boundary leaves whole characters on both sides. */
  lemma {:induction false} Utf8Cut(s: seq<byte>, k: nat)
    requires IsUtf8(s) && k <= |s| && IsBoundary(s, k)
    ensures IsUtf8(s[..k]) && IsUtf8(s[k..])
    decreases |s|
  {
    if k == 0 {
      assert s[0..] == s;
    } else {
      var w := CharWidth(s[0]);
      assert k >= w;
      Utf8Cut(s[w..], k - w);
      CutPast(s, w, k);
    }
  }

  lemma CutPast(s: seq<byte>, w: nat, k: nat)
    requires w <= k <= |s|
    ensures s[w..][k - w..] == s[k..]
    ensures s[..k][w..] == s[w..][..k - w]
  {
    assert s[..k][w..] == s[w..k] == s[w..][..k - w];
  }

  /** A boundary is never more than three bytes back. */
  lemma {:induction false} BoundaryNearby(s: seq<byte>, k: nat)
    requires IsUtf8(s) && k <= |s|
    ensures exists b: nat :: b <= k <= b + 3 && IsBoundary(s, b)
    decreases |s|
  {
    if k == 0 || k == |s| {
      assert IsBoundary(s, k);
    } else {
      var w := CharWidth(s[0]);
      if k < w {
        assert IsBoundary(s, 0);
      } else {
        BoundaryNearby(s[w..], k - w);
        var b: nat :| b <= k - w <= b + 3 && IsBoundary(s[w..], b);
        assert IsBoundary(s, b + w) by {
          if b == 0 && w < |s| { assert IsUtf8(s[w..]); }
        }
      }
    }
  }

  // ---- one append -----------------------------------------------------------

  /** The largest boundary at or below `keep`. */
  function Retreat(text: seq<byte>, keep: nat): (k: nat)
    ensures k <= keep && IsBoundary(text, k)
  {
    if keep == 0 || IsBoundary(text, keep) then keep else Retreat(text, keep - 1)
  }

  datatype Pushed = Pushed(text: seq<byte>, changed: bool)

  function PushCapped(existing: seq<byte>, text: seq<byte>): Pushed {
    if |existing| >= CONTENT_LIMIT then Pushed(existing, false)
    else
      var budget := CONTENT_LIMIT - |existing|;
      if |text| <= budget then Pushed(existing + text, true)
      else Pushed(existing + text[..Retreat(text, budget)] + NOTICE, true)
  }

  method PushCappedMessageText(existing: seq<byte>, text: seq<byte>) returns (after: seq<byte>, changed: bool)
    ensures Pushed(after, changed) == PushCapped(existing, text)
  {
    if |existing| > CONTENT_LIMIT { return existing, false; }
    var budget := CONTENT_LIMIT - |existing|;
    if budget == 0 { return existing, false; }
    if |text| <= budget { return existing + text, true; }
    var keep := budget;
    while keep > 0 && !IsBoundary(text, keep)
      invariant 0 <= keep <= budget
      invariant Retreat(text, keep) == Retreat(text, budget)
    {
      keep := keep - 1;
    }
    after := existing + text[..keep];
    after := after + NOTICE;
    changed := true;
  }

  lemma {:induction false} RetreatIsLargest(text: seq<byte>, keep: nat, b: nat)
    requires b <= keep && IsBoundary(text, b)
    ensures b <= Retreat(text, keep)
  {
    if keep != 0 && !IsBoundary(text, keep) { RetreatIsLargest(text, keep - 1, b); }
  }

  lemma RetreatIsShort(text: seq<byte>, keep: nat)
    requires IsUtf8(text) && keep <= |text|
    ensures keep <= Retreat(text, keep) + 3
  {
    BoundaryNearby(text, keep);
    var b: nat :| b <= keep <= b + 3 && IsBoundary(text, b);
    RetreatIsLargest(text, keep, b);
  }

  /**
  After an append that truncates or is refused, no later append changes the
  message; an append is refused exactly when the content limit is reached.
  */
  lemma FullStaysFull(existing: seq<byte>, text: seq<byte>, later: seq<byte>)
    requires IsUtf8(text) && text != []
    ensures !PushCapped(existing, text).changed <==> |existing| >= CONTENT_LIMIT
    ensures !PushCapped(existing, text).changed || |existing| + |text| > CONTENT_LIMIT
            ==> var full := PushCapped(existing, text).text;
                |full| >= CONTENT_LIMIT && PushCapped(full, later) == Pushed(full, false)
  {
    if |existing| < CONTENT_LIMIT < |existing| + |text| {
      RetreatIsShort(text, CONTENT_LIMIT - |existing|);
    }
  }

  // ---- a run of deltas ------------------------------------------------------

  function PushAll(existing: seq<byte>, deltas: seq<seq<byte>>): seq<byte>
    decreases |deltas|
  {
    if deltas == [] then existing else PushAll(PushCapped(existing, deltas[0]).text, deltas[1..])
  }

  lemma {:induction false} FullMessageStays(existing: seq<byte>, deltas: seq<seq<byte>>)
    requires |existing| >= CONTENT_LIMIT
    ensures PushAll(existing, deltas) == existing
    decreases |deltas|
  {
    if deltas != [] { FullMessageStays(existing, deltas[1..]); }
  }

  /** Some of the deltas, from the first on, bring the text to the limit exactly. */
  predicate LandsOnLimit(size: nat, deltas: seq<seq<byte>>)
    decreases |deltas|
  {
    size == CONTENT_LIMIT
    || (deltas != [] && LandsOnLimit(size + |deltas[0]|, deltas[1..]))
  }

  /** The message is the stream cut after `k` bytes, at a character, and the notice. */
  ghost predicate NoticedAt(message: seq<byte>, stream: seq<byte>, k: nat) {
    && CONTENT_LIMIT - 3 <= k <= CONTENT_LIMIT && k <= |stream| && IsBoundary(stream, k)
    && message == stream[..k] + NOTICE
  }

  /** What a message holds after a stream that overran the limit. */
  ghost predicate CutOff(message: seq<byte>, stream: seq<byte>, noticed: bool)
    requires |stream| >= CONTENT_LIMIT
  {
    if noticed then exists k: nat :: NoticedAt(message, stream, k)
    else message == stream[..CONTENT_LIMIT] && IsBoundary(stream, CONTENT_LIMIT)
  }

  lemma BoundaryInside(before: seq<byte>, text: seq<byte>, after: seq<byte>, keep: nat)
    requires IsUtf8(text) && keep < |text| && IsBoundary(text, keep)
    ensures IsBoundary(before + text + after, |before| + keep)
    ensures (before + text + after)[..|before| + keep] == before + text[..keep]
  {
    assert (before + text + after)[|before| + keep] == text[keep];
    if keep == 0 { assert !IsContinuation(text[0]); }
  }

  lemma CutInside(existing: seq<byte>, text: seq<byte>, rest: seq<byte>, keep: nat)
    requires IsUtf8(text) && |existing| < CONTENT_LIMIT < |existing| + |text|
    requires keep <= CONTENT_LIMIT - |existing| <= keep + 3 && IsBoundary(text, keep)
    ensures CutOff(existing + text[..keep] + NOTICE, existing + text + rest, true)
  {
    BoundaryInside(existing, text, rest, keep);
    assert NoticedAt(existing + text[..keep] + NOTICE, existing + text + rest, |existing| + keep);
  }

  lemma {:induction false} Utf8Concat(parts: seq<seq<byte>>)
    requires forall d :: d in parts ==> IsUtf8(d)
    ensures IsUtf8(Concat(parts))
  {
    if parts != [] {
      assert parts[0] in parts;
      assert forall d :: d in parts[1..] ==> d in parts;
      Utf8Concat(parts[1..]);
      Utf8Append(parts[0], Concat(parts[1..]));
    }
  }

  /** A message against the stream it was meant to hold. */
  ghost predicate Streamed(message: seq<byte>, stream: seq<byte>, noticed: bool) {
    if |stream| <= CONTENT_LIMIT then message == stream else CutOff(message, stream, noticed)
  }

  /**
  A run of deltas into one message. Within the limit the message is their
  concatenation. Past it, the message is a prefix of the concatenation cut at a
  character, followed by the notice, except that no notice is written when some
  of the deltas came to the limit exactly.
  */
  lemma {:induction false} StreamedMessage(existing: seq<byte>, deltas: seq<seq<byte>>)
    requires IsUtf8(existing) && |existing| <= CONTENT_LIMIT
    requires forall d :: d in deltas ==> d != [] && IsUtf8(d)
    ensures Streamed(PushAll(existing, deltas), existing + Concat(deltas), !LandsOnLimit(|existing|, deltas))
    decreases |deltas|
  {
    if deltas == [] {
      assert existing + Concat(deltas) == existing;
    } else if |existing| == CONTENT_LIMIT {
      FullMessageStays(existing, deltas);
      LimitBoundary(existing, Concat(deltas), deltas);
    } else {
      var text, rest := deltas[0], deltas[1..];
      assert text in deltas;
      assert forall d :: d in rest ==> d in deltas;
      if |existing| + |text| <= CONTENT_LIMIT {
        Utf8Append(existing, text);
        StreamedMessage(existing + text, rest);
        FirstDeltaFits(existing, deltas);
      } else {
        PastLimitNeverLands(|existing| + |text|, rest);
        FirstDeltaOverruns(existing, deltas, PushAll(existing, deltas), existing + Concat(deltas));
      }
    }
  }

  lemma FirstDeltaFits(existing: seq<byte>, deltas: seq<seq<byte>>)
    requires deltas != [] && deltas[0] != [] && |existing| + |deltas[0]| <= CONTENT_LIMIT
    requires var longer, rest := existing + deltas[0], deltas[1..];
             Streamed(PushAll(longer, rest), longer + Concat(rest), !LandsOnLimit(|longer|, rest))
    ensures Streamed(PushAll(existing, deltas), existing + Concat(deltas), !LandsOnLimit(|existing|, deltas))
  {
    StreamAssociates(existing, deltas);
  }

  lemma FirstDeltaOverruns(existing: seq<byte>, deltas: seq<seq<byte>>, message: seq<byte>, stream: seq<byte>)
    requires deltas != [] && IsUtf8(deltas[0]) && |existing| < CONTENT_LIMIT < |existing| + |deltas[0]|
    requires message == PushAll(existing, deltas) && stream == existing + Concat(deltas)
    ensures Streamed(message, stream, true)
  {
    StreamAssociates(existing, deltas);
    OverrunMessage(existing, deltas[0], deltas[1..], message, stream);
  }

  lemma OverrunPush(existing: seq<byte>, text: seq<byte>, rest: seq<byte>)
    requires IsUtf8(text) && |existing| < CONTENT_LIMIT < |existing| + |text|
    ensures |PushCapped(existing, text).text| >= CONTENT_LIMIT
    ensures CutOff(PushCapped(existing, text).text, existing + text + rest, true)
  {
    var keep := Retreat(text, CONTENT_LIMIT - |existing|);
    RetreatIsShort(text, CONTENT_LIMIT - |existing|);
    CutInside(existing, text, rest, keep);
  }

  lemma OverrunMessage(existing: seq<byte>, text: seq<byte>, rest: seq<seq<byte>>,
                       message: seq<byte>, stream: seq<byte>)
    requires IsUtf8(text) && |existing| < CONTENT_LIMIT < |existing| + |text|
    requires message == PushAll(PushCapped(existing, text).text, rest)
    requires stream == existing + text + Concat(rest)
    ensures Streamed(message, stream, true)
  {
    OverrunPush(existing, text, Concat(rest));
    FullMessageStays(PushCapped(existing, text).text, rest);
  }

  lemma StreamAssociates(existing: seq<byte>, deltas: seq<seq<byte>>)
    requires deltas != []
    ensures existing + Concat(deltas) == existing + deltas[0] + Concat(deltas[1..])
  {
    assert Concat(deltas) == deltas[0] + Concat(deltas[1..]);
  }

  lemma LimitBoundary(existing: seq<byte>, more: seq<byte>, deltas: seq<seq<byte>>)
    requires |existing| == CONTENT_LIMIT && more == Concat(deltas)
    requires forall d :: d in deltas ==> IsUtf8(d)
    ensures Streamed(existing, existing + more, false)
  {
    Utf8Concat(deltas);
    assert more == [] ==> existing + more == existing;
    assert (existing + more)[..CONTENT_LIMIT] == existing;
    if more != [] { assert (existing + more)[CONTENT_LIMIT] == more[0]; }
  }

  lemma {:induction false} PastLimitNeverLands(size: nat, deltas: seq<seq<byte>>)
    requires size > CONTENT_LIMIT
    ensures !LandsOnLimit(size, deltas)
    decreases |deltas|
  {
    if deltas != [] { PastLimitNeverLands(size + |deltas[0]|, deltas[1..]); }
  }

  /** No run of deltas makes a message larger than the cap, and none leaves it broken UTF-8. */
  lemma {:induction false} MessageStaysBounded(existing: seq<byte>, deltas: seq<seq<byte>>)
    requires IsUtf8(existing) && |existing| <= MAX_MESSAGE_BYTES
    requires forall d :: d in deltas ==> IsUtf8(d)
    ensures |PushAll(existing, deltas)| <= MAX_MESSAGE_BYTES && IsUtf8(PushAll(existing, deltas))
    decreases |deltas|
  {
    if deltas != [] {
      var text := deltas[0];
      assert text in deltas;
      assert forall d :: d in deltas[1..] ==> d in deltas;
      if |existing| < CONTENT_LIMIT {
        if |existing| + |text| <= CONTENT_LIMIT {
          Utf8Append(existing, text);
        } else {
          var keep := Retreat(text, CONTENT_LIMIT - |existing|);
          Utf8Cut(text, keep);
          Utf8Append(existing, text[..keep]);
          NoticeIsUtf8();
          Utf8Append(existing + text[..keep], NOTICE);
        }
      }
      MessageStaysBounded(PushCapped(existing, text).text, deltas[1..]);
    }
  }

  lemma NoticeIsUtf8()
    ensures IsUtf8(NOTICE)
  {
    AsciiIsUtf8(NOTICE);
  }

  lemma {:induction false} AsciiIsUtf8(s: seq<byte>)
    requires forall b :: b in s ==> b < 0x80
    ensures IsUtf8(s)
  {
    if s != [] {
      assert s[0] in s;
      assert forall b :: b in s[1..] ==> b in s;
      AsciiIsUtf8(s[1..]);
    }
  }

  /** Text dropped with nothing to show for it: a stream that stops at the limit, then goes on. */
  lemma DroppedWithoutNotice(stream: seq<byte>, more: seq<byte>)
    requires |stream| == CONTENT_LIMIT && more != []
    ensures PushAll([], [stream, more]) == stream
  {
    var deltas := [stream, more];
    assert deltas[1..] == [more] && [more][1..] == [];
    assert [] + stream == stream;
    assert PushCapped([], stream).text == stream;
    assert PushAll(stream, [more]) == PushAll(PushCapped(stream, more).text, []) == stream;
  }

  // ---- into the chat --------------------------------------------------------

  datatype Appended = Appended(messages: seq<ChatMessage>, changed: bool)

  /** A delta joins the last message when the role matches, and starts a new one otherwise. */
  function AppendDelta(messages: seq<ChatMessage>, role: ChatMessageRole, text: seq<byte>): Appended {
    if text == [] then Appended(messages, false)
    else if messages != [] && messages[|messages| - 1].role == role then
      var pushed := PushCapped(messages[|messages| - 1].text, text);
      Appended(messages[|messages| - 1 := ChatMessage(role, pushed.text)], pushed.changed)
    else Appended(messages + [ChatMessage(role, PushCapped([], text).text)], true)
  }

  function AppendDeltas(messages: seq<ChatMessage>, role: ChatMessageRole, deltas: seq<seq<byte>>): seq<ChatMessage>
    decreases |deltas|
  {
    if deltas == [] then messages
    else AppendDeltas(AppendDelta(messages, role, deltas[0]).messages, role, deltas[1..])
  }

  /** A run of deltas of one role grows one message and leaves the earlier ones alone. */
  lemma {:induction false} SameRoleRun(
    earlier: seq<ChatMessage>, role: ChatMessageRole, existing: seq<byte>, deltas: seq<seq<byte>>)
    requires forall d :: d in deltas ==> d != []
    ensures AppendDeltas(earlier + [ChatMessage(role, existing)], role, deltas)
            == earlier + [ChatMessage(role, PushAll(existing, deltas))]
    decreases |deltas|
  {
    if deltas != [] {
      assert deltas[0] in deltas;
      assert forall d :: d in deltas[1..] ==> d in deltas;
      var messages := earlier + [ChatMessage(role, existing)];
      var text := PushCapped(existing, deltas[0]).text;
      assert messages[|messages| - 1 := ChatMessage(role, text)] == earlier + [ChatMessage(role, text)];
      SameRoleRun(earlier, role, text, deltas[1..]);
    }
  }
}

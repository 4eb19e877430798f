/**
Driving the emulator and the query detector over a chunk of pane output
(`feed_parser_with_responder`): the batched loop, the byte-at-a-time loop it
must agree with, and the bound on what it answers.

The emulator is any state with a transition per byte and a cursor.
*/
module ResponderFeed {
  import opened Primitives
  import opened TerminalQueries

  const MAX_RESPONSES := 8
  const MAX_RESPONSE_BYTES := 256

  datatype Emulator<!S> = Emulator(step: (S, byte) -> S, cursor: S -> (ScreenIndex, ScreenIndex))

  /** The screen after a run of bytes. */
  function Draw<S>(em: Emulator<S>, screen: S, bytes: seq<byte>): S
    decreases |bytes|
  {
    if bytes == [] then screen else Draw(em, em.step(screen, bytes[0]), bytes[1..])
  }

  lemma {:induction false} DrawAppend<S>(em: Emulator<S>, screen: S, a: seq<byte>, b: seq<byte>)
    ensures Draw(em, screen, a + b) == Draw(em, Draw(em, screen, a), b)
    decreases |a|
  {
    if a == [] {
      assert a + b == b;
    } else {
      assert (a + b)[0] == a[0] && (a + b)[1..] == a[1..] + b;
      DrawAppend(em, em.step(screen, a[0]), a[1..], b);
    }
  }

  function ResolveOn<S>(em: Emulator<S>, screen: S, query: Query): Response {
    var (row, col) := em.cursor(screen);
    Resolve(query, row, col)
  }

  // ---- the byte-at-a-time meaning -------------------------------------------

  /** Answers accepted so far from one chunk. */
  datatype Budget = Budget(payload: seq<byte>, answered: nat, cursorReported: bool)

  const NO_ANSWERS := Budget([], 0, false)

  predicate Accepts(budget: Budget, r: Response) {
    && !(budget.cursorReported && r.kind == CursorPosition)
    && budget.answered < MAX_RESPONSES
    && |budget.payload| + |r.bytes| <= MAX_RESPONSE_BYTES
  }

  function Offer(budget: Budget, r: Response): Budget {
    if Accepts(budget, r) then
      Budget(budget.payload + r.bytes, budget.answered + 1,
             budget.cursorReported || r.kind == CursorPosition)
    else budget
  }

  datatype Feed<S> = Feed(screen: S, detector: Detector, budget: Budget)

  function Answer<S>(em: Emulator<S>, f: Feed<S>, query: Option<Query>): Feed<S> {
    if query.None? then f else f.(budget := Offer(f.budget, ResolveOn(em, f.screen, query.value)))
  }

  function FeedByte<S>(em: Emulator<S>, f: Feed<S>, b: byte): Feed<S> {
    var (detector, query) := Step(f.detector, b);
    Answer(em, Feed(em.step(f.screen, b), detector, f.budget), query)
  }

  function FeedBytes<S>(em: Emulator<S>, f: Feed<S>, bytes: seq<byte>): Feed<S>
    decreases |bytes|
  {
    if bytes == [] then f else FeedBytes(em, FeedByte(em, f, bytes[0]), bytes[1..])
  }

  lemma {:induction false} FeedAppend<S>(em: Emulator<S>, f: Feed<S>, a: seq<byte>, b: seq<byte>)
    ensures FeedBytes(em, f, a + b) == FeedBytes(em, FeedBytes(em, f, a), b)
    decreases |a|
  {
    if a == [] {
      assert a + b == b;
    } else {
      assert (a + b)[0] == a[0] && (a + b)[1..] == a[1..] + b;
      FeedAppend(em, FeedByte(em, f, a[0]), a[1..], b);
    }
  }

  lemma FeedSnoc<S>(em: Emulator<S>, f: Feed<S>, a: seq<byte>, b: byte)
    ensures FeedBytes(em, f, a + [b]) == FeedByte(em, FeedBytes(em, f, a), b)
  {
    FeedAppend(em, f, a, [b]);
    assert [b][1..] == [];
  }

  /** Screen and detector follow the stream alone; answers never feed back into either. */
  lemma {:induction false} FeedEndState<S>(em: Emulator<S>, f: Feed<S>, bytes: seq<byte>)
    ensures FeedBytes(em, f, bytes).screen == Draw(em, f.screen, bytes)
    ensures FeedBytes(em, f, bytes).detector == Scan(f.detector, bytes)
    decreases |bytes|
  {
    if bytes != [] {
      FeedEndState(em, FeedByte(em, f, bytes[0]), bytes[1..]);
    }
  }

  /** Feed a stream cut into chunks, with a fresh answer budget for each chunk. */
  function FeedChunks<S>(em: Emulator<S>, screen: S, d: Detector, chunks: seq<seq<byte>>): (S, Detector)
    decreases |chunks|
  {
    if chunks == [] then (screen, d)
    else
      var f := FeedBytes(em, Feed(screen, d, NO_ANSWERS), chunks[0]);
      FeedChunks(em, f.screen, f.detector, chunks[1..])
  }

  /** The end state does not depend on where a stream is cut. */
  lemma {:induction false} CutIndependence<S>(
    em: Emulator<S>, screen: S, d: Detector, chunks: seq<seq<byte>>)
    ensures FeedChunks(em, screen, d, chunks)
            == (Draw(em, screen, Concat(chunks)), Scan(d, Concat(chunks)))
    decreases |chunks|
  {
    if chunks != [] {
      FeedEndState(em, Feed(screen, d, NO_ANSWERS), chunks[0]);
      CutIndependence(em, Draw(em, screen, chunks[0]), Scan(d, chunks[0]), chunks[1..]);
      DrawAppend(em, screen, chunks[0], Concat(chunks[1..]));
      ScanAppend(d, chunks[0], Concat(chunks[1..]));
    }
  }

  // ---- what is answered -----------------------------------------------------

  /** Every query of the stream resolved on the screen it was asked of, in order. */
  function Resolved<S>(em: Emulator<S>, screen: S, d: Detector, bytes: seq<byte>): seq<Response>
    decreases |bytes|
  {
    if bytes == [] then []
    else
      var shown := em.step(screen, bytes[0]);
      var (next, query) := Step(d, bytes[0]);
      (if query.Some? then [ResolveOn(em, shown, query.value)] else [])
      + Resolved(em, shown, next, bytes[1..])
  }

  /** The list without any cursor report after the first. */
  function DropRepeatedCursors(reported: bool, rs: seq<Response>): seq<Response>
    decreases |rs|
  {
    if rs == [] then []
    else if rs[0].kind == CursorPosition then
      if reported then DropRepeatedCursors(true, rs[1..])
      else [rs[0]] + DropRepeatedCursors(true, rs[1..])
    else [rs[0]] + DropRepeatedCursors(reported, rs[1..])
  }

  function Payload(rs: seq<Response>): seq<byte> {
    if rs == [] then [] else rs[0].bytes + Payload(rs[1..])
  }

  /** The sizes a detector query can resolve to. */
  predicate WellSized(r: Response) {
    if r.kind == CursorPosition then |r.bytes| <= 15 else |r.bytes| <= 7
  }

  lemma StepQuerySize<S>(em: Emulator<S>, screen: S, d: Detector, b: byte)
    ensures Step(d, b).1.Some? ==> WellSized(ResolveOn(em, screen, Step(d, b).1.value))
  {
  }

  /** Offering a list of resolved queries in order. */
  function OfferAll(budget: Budget, rs: seq<Response>): Budget
    decreases |rs|
  {
    if rs == [] then budget else OfferAll(Offer(budget, rs[0]), rs[1..])
  }

  lemma {:induction false} FeedOffersResolved<S>(em: Emulator<S>, f: Feed<S>, bytes: seq<byte>)
    ensures FeedBytes(em, f, bytes).budget
            == OfferAll(f.budget, Resolved(em, f.screen, f.detector, bytes))
    ensures forall r :: r in Resolved(em, f.screen, f.detector, bytes) ==> WellSized(r)
    decreases |bytes|
  {
    if bytes != [] {
      var shown := em.step(f.screen, bytes[0]);
      var query := Step(f.detector, bytes[0]).1;
      StepQuerySize(em, shown, f.detector, bytes[0]);
      FeedOffersResolved(em, FeedByte(em, f, bytes[0]), bytes[1..]);
      if query.Some? {
        var r := ResolveOn(em, shown, query.value);
        var rest := Resolved(em, shown, Step(f.detector, bytes[0]).0, bytes[1..]);
        assert ([r] + rest)[1..] == rest;
      } else {
        assert [] + Resolved(em, shown, Step(f.detector, bytes[0]).0, bytes[1..])
               == Resolved(em, shown, Step(f.detector, bytes[0]).0, bytes[1..]);
      }
    }
  }

  /** What the answer count alone says about the payload's size. */
  predicate Sized(b: Budget) {
    && b.answered <= MAX_RESPONSES
    && |b.payload| <= 7 * b.answered + (if b.cursorReported then 8 else 0)
  }

  /** Within these sizes the byte ceiling never refuses an answer. */
  lemma OfferOne(b: Budget, r: Response)
    requires Sized(b) && WellSized(r)
    ensures Sized(Offer(b, r))
    ensures Accepts(b, r)
            <==> !(b.cursorReported && r.kind == CursorPosition) && b.answered < MAX_RESPONSES
  {
  }

  /** The answers chosen from `rs` when `b` has already been spent. */
  function Selection(b: Budget, rs: seq<Response>): seq<byte>
    requires b.answered <= MAX_RESPONSES
  {
    Payload(AtMost(MAX_RESPONSES - b.answered, DropRepeatedCursors(b.cursorReported, rs)))
  }

  /** So the selection is by kind and count only. */
  lemma {:induction false} OfferedSelection(b: Budget, rs: seq<Response>)
    requires Sized(b)
    requires forall r :: r in rs ==> WellSized(r)
    ensures Sized(OfferAll(b, rs))
    ensures OfferAll(b, rs).payload
            == b.payload + Selection(b, rs)
    decreases |rs|
  {
    if rs == [] {
      assert b.payload + [] == b.payload;
    } else {
      var r, rest := rs[0], rs[1..];
      assert r in rs;
      assert forall x :: x in rest ==> x in rs;
      OfferOne(b, r);
      OfferedSelection(Offer(b, r), rest);
      if b.answered < MAX_RESPONSES && Accepts(b, r) {
        SelectionStep(b, r, rest);
        assert rs == [r] + rest;
      } else if b.answered == MAX_RESPONSES {
        var kept := DropRepeatedCursors(b.cursorReported, rs);
        assert AtMost(0, kept) == [] && AtMost(0, DropRepeatedCursors(b.cursorReported, rest)) == [];
      }
    }
  }

  lemma SelectionStep(b: Budget, r: Response, rest: seq<Response>)
    requires b.answered < MAX_RESPONSES && Accepts(b, r)
    ensures Offer(b, r).payload + Selection(Offer(b, r), rest) == b.payload + Selection(b, [r] + rest)
  {
    var next := Offer(b, r);
    var tail := DropRepeatedCursors(next.cursorReported, rest);
    DropRepeatedCons(b.cursorReported, r, rest);
    AtMostCons(MAX_RESPONSES - b.answered, r, tail);
    PrefixAssociates(b.payload, r.bytes, Selection(next, rest));
  }

  lemma PrefixAssociates(a: seq<byte>, b: seq<byte>, c: seq<byte>)
    ensures (a + b) + c == a + (b + c)
  {
  }

  lemma DropRepeatedCons(reported: bool, r: Response, rest: seq<Response>)
    requires !(reported && r.kind == CursorPosition)
    ensures DropRepeatedCursors(reported, [r] + rest)
            == [r] + DropRepeatedCursors(reported || r.kind == CursorPosition, rest)
  {
    assert ([r] + rest)[1..] == rest;
  }

  lemma AtMostCons(n: nat, r: Response, tail: seq<Response>)
    requires n > 0
    ensures Payload(AtMost(n, [r] + tail)) == r.bytes + Payload(AtMost(n - 1, tail))
  {
    assert AtMost(n, [r] + tail) == [r] + AtMost(n - 1, tail);
    assert ([r] + AtMost(n - 1, tail))[1..] == AtMost(n - 1, tail);
  }

  lemma {:induction false} OneCursor(reported: bool, rs: seq<Response>, i: nat, j: nat)
    requires i < j < |DropRepeatedCursors(reported, rs)|
    requires DropRepeatedCursors(reported, rs)[j].kind == CursorPosition
    ensures !reported && DropRepeatedCursors(reported, rs)[i].kind == Device
    decreases |rs|
  {
    var kept := DropRepeatedCursors(reported, rs);
    if rs[0].kind == CursorPosition && reported {
      OneCursor(true, rs[1..], i, j);
    } else {
      var nextReported := reported || rs[0].kind == CursorPosition;
      var tail := DropRepeatedCursors(nextReported, rs[1..]);
      assert kept == [rs[0]] + tail;
      assert tail[j - 1].kind == CursorPosition;
      NoCursorOnceReported(nextReported, rs[1..], j - 1);
      if i > 0 { OneCursor(nextReported, rs[1..], i - 1, j - 1); }
    }
  }

  lemma {:induction false} NoCursorOnceReported(reported: bool, rs: seq<Response>, j: nat)
    requires j < |DropRepeatedCursors(reported, rs)|
    requires DropRepeatedCursors(reported, rs)[j].kind == CursorPosition
    ensures !reported
    decreases |rs|
  {
    if rs[0].kind == CursorPosition && reported {
      NoCursorOnceReported(true, rs[1..], j);
    } else if j > 0 {
      var nextReported := reported || rs[0].kind == CursorPosition;
      assert DropRepeatedCursors(reported, rs) == [rs[0]] + DropRepeatedCursors(nextReported, rs[1..]);
      NoCursorOnceReported(nextReported, rs[1..], j - 1);
    }
  }

  /**
  One chunk answers its queries in stream order, whole: the first cursor report
  and every device report, cut off after eight, and never more than 64 bytes.
  */
  lemma ChunkAnswer<S>(em: Emulator<S>, screen: S, d: Detector, bytes: seq<byte>)
    ensures var answered := AtMost(MAX_RESPONSES, DropRepeatedCursors(false, Resolved(em, screen, d, bytes)));
            var payload := FeedBytes(em, Feed(screen, d, NO_ANSWERS), bytes).budget.payload;
            && payload == Payload(answered)
            && |payload| <= 64
            && |answered| <= MAX_RESPONSES
            && (forall i, j :: 0 <= i < j < |answered| && answered[j].kind == CursorPosition
                               ==> answered[i].kind == Device)
  {
    var f := Feed(screen, d, NO_ANSWERS);
    FeedOffersResolved(em, f, bytes);
    var rs := Resolved(em, screen, d, bytes);
    OfferedSelection(NO_ANSWERS, rs);
    var kept := DropRepeatedCursors(false, rs);
    forall i, j | 0 <= i < j < |AtMost(MAX_RESPONSES, kept)| && AtMost(MAX_RESPONSES, kept)[j].kind == CursorPosition
      ensures AtMost(MAX_RESPONSES, kept)[i].kind == Device
    {
      OneCursor(false, rs, i, j);
    }
  }

  // ---- the loops ------------------------------------------------------------

  class Parser<S> {
    const em: Emulator<S>
    var screen: S

    constructor (em: Emulator<S>, screen: S)
      ensures this.em == em && this.screen == screen
    {
      this.em, this.screen := em, screen;
    }

    method Process(bytes: seq<byte>)
      modifies this
      ensures screen == Draw(em, old(screen), bytes)
    {
      for i := 0 to |bytes|
        invariant Draw(em, screen, bytes[i..]) == Draw(em, old(screen), bytes)
      {
        assert bytes[i..][1..] == bytes[i + 1..];
        screen := em.step(screen, bytes[i]);
      }
    }
  }

  /** Printable output while the detector is idle only reaches the screen. */
  lemma {:induction false} IdleRun<S>(em: Emulator<S>, f: Feed<S>, run: seq<byte>)
    requires f.detector.state == Ground && ESC !in run
    ensures FeedBytes(em, f, run) == f.(screen := Draw(em, f.screen, run))
    decreases |run|
  {
    if run != [] {
      assert run[0] in run;
      assert forall b :: b in run[1..] ==> b in run;
      IdleRun(em, FeedByte(em, f, run[0]), run[1..]);
    }
  }

  /** The first escape at or after `from`, or the end of the chunk. */
  method FindEscape(bytes: seq<byte>, from: nat) returns (end: nat)
    requires from <= |bytes|
    ensures from <= end <= |bytes|
    ensures ESC !in bytes[from..end]
    ensures end < |bytes| ==> bytes[end] == ESC
  {
    end := from;
    while end < |bytes| && bytes[end] != ESC
      invariant from <= end <= |bytes|
      invariant ESC !in bytes[from..end]
    {
      assert bytes[from..end + 1] == bytes[from..end] + [bytes[end]];
      end := end + 1;
    }
  }

  lemma FeedOnward<S>(em: Emulator<S>, f: Feed<S>, bytes: seq<byte>, i: nat, j: nat)
    requires i <= j <= |bytes|
    ensures FeedBytes(em, f, bytes[..j]) == FeedBytes(em, FeedBytes(em, f, bytes[..i]), bytes[i..j])
  {
    FeedAppend(em, f, bytes[..i], bytes[i..j]);
    assert bytes[..i] + bytes[i..j] == bytes[..j];
  }

  /** One recognised query answered from the screen as it is now, if the budget allows. */
  method AnswerOn<S>(em: Emulator<S>, screen: S, query: Query, payload: seq<byte>, answered: nat, cursorReported: bool)
    returns (longer: seq<byte>, count: nat, reported: bool)
    ensures Budget(longer, count, reported)
            == Offer(Budget(payload, answered, cursorReported), ResolveOn(em, screen, query))
  {
    longer, count, reported := payload, answered, cursorReported;
    var (row, col) := em.cursor(screen);
    var response := Resolve(query, row, col);
    var repeatedCursor := cursorReported && response.kind == CursorPosition;
    var overBudget := answered >= MAX_RESPONSES
                      || |payload| + |response.bytes| > MAX_RESPONSE_BYTES;
    if !repeatedCursor && !overBudget {
      reported := cursorReported || response.kind == CursorPosition;
      count := answered + 1;
      longer := payload + response.bytes;
    }
  }

  /**
  The batched loop. It ends with the screen, detector and answer payload of
  feeding every byte on its own, from any detector state.
  */
  method FeedParserWithResponder<S>(
    parser: Parser<S>, responder: TerminalResponseDetector, bytes: seq<byte>)
    returns (payload: seq<byte>)
    requires responder.Valid()
    modifies parser, responder, responder.csi
    ensures responder.Valid()
    ensures var end := FeedBytes(parser.em, Feed(old(parser.screen), old(responder.Value()), NO_ANSWERS), bytes);
            parser.screen == end.screen && responder.Value() == end.detector && payload == end.budget.payload
  {
    var answered, cursorReported, index := 0, false, 0;
    payload := [];
    ghost var f0 := Feed(parser.screen, responder.Value(), NO_ANSWERS);
    while index < |bytes|
      invariant index <= |bytes| && responder.Valid()
      invariant Feed(parser.screen, responder.Value(), Budget(payload, answered, cursorReported))
                == FeedBytes(parser.em, f0, bytes[..index])
    {
      ghost var f := Feed(parser.screen, responder.Value(), Budget(payload, answered, cursorReported));
      if responder.IsGround() {
        var runEnd := FindEscape(bytes, index);
        if runEnd > index {
          IdleRun(parser.em, f, bytes[index..runEnd]);
          FeedOnward(parser.em, f0, bytes, index, runEnd);
          parser.Process(bytes[index..runEnd]);
          index := runEnd;
          continue;
        }
      }

      var start := index;
      var query := ScanSequence(responder, bytes, start, parser.em, f);
      index := query.1;
      parser.Process(bytes[start..index]);
      FeedOnward(parser.em, f0, bytes, start, index);

      if query.0.Some? {
        payload, answered, cursorReported :=
          AnswerOn(parser.em, parser.screen, query.0.value, payload, answered, cursorReported);
      }
    }
    assert bytes[..index] == bytes;
  }

  lemma OneByteOn<S>(em: Emulator<S>, f: Feed<S>, bytes: seq<byte>, start: nat, index: nat)
    requires start <= index < |bytes|
    ensures FeedBytes(em, f, bytes[start..index + 1])
            == FeedByte(em, FeedBytes(em, f, bytes[start..index]), bytes[index])
    ensures Draw(em, f.screen, bytes[start..index + 1])
            == em.step(Draw(em, f.screen, bytes[start..index]), bytes[index])
  {
    assert bytes[start..index + 1] == bytes[start..index] + [bytes[index]];
    FeedSnoc(em, f, bytes[start..index], bytes[index]);
    DrawAppend(em, f.screen, bytes[start..index], [bytes[index]]);
    assert [bytes[index]][1..] == [];
  }

  /**
  The inner loop: scan one escape sequence out of the chunk. Its bytes draw on
  the screen and move the detector, and the query, if one was recognised, was
  completed by the last of them.
  */
  method ScanSequence<S>(
    responder: TerminalResponseDetector, bytes: seq<byte>, start: nat,
    em: Emulator<S>, ghost f: Feed<S>)
    returns (result: (Option<Query>, nat))
    requires responder.Valid() && start < |bytes|
    requires f.detector == responder.Value()
    modifies responder, responder.csi
    ensures responder.Valid() && start < result.1 <= |bytes|
    ensures FeedBytes(em, f, bytes[start..result.1])
            == Answer(em, Feed(Draw(em, f.screen, bytes[start..result.1]), responder.Value(), f.budget), result.0)
  {
    var index, query := start, None;
    while index < |bytes|
      invariant start <= index <= |bytes| && responder.Valid()
      invariant query.None?
      invariant FeedBytes(em, f, bytes[start..index])
                == Feed(Draw(em, f.screen, bytes[start..index]), responder.Value(), f.budget)
    {
      OneByteOn(em, f, bytes, start, index);
      var recognised := responder.Advance(bytes[index]);
      index := index + 1;
      if recognised.Some? { query := recognised; }
      if responder.IsGround() { break; }
    }
    return (query, index);
  }

  /** The reference loop: one emulator call per byte. */
  method FeedParserByteAtATime<S>(
    parser: Parser<S>, responder: TerminalResponseDetector, bytes: seq<byte>)
    returns (payload: seq<byte>)
    requires responder.Valid()
    modifies parser, responder, responder.csi
    ensures responder.Valid()
    ensures var end := FeedBytes(parser.em, Feed(old(parser.screen), old(responder.Value()), NO_ANSWERS), bytes);
            parser.screen == end.screen && responder.Value() == end.detector && payload == end.budget.payload
  {
    var answered, cursorReported := 0, false;
    payload := [];
    ghost var f0 := Feed(parser.screen, responder.Value(), NO_ANSWERS);
    for i := 0 to |bytes|
      invariant responder.Valid()
      invariant Feed(parser.screen, responder.Value(), Budget(payload, answered, cursorReported))
                == FeedBytes(parser.em, f0, bytes[..i])
    {
      assert bytes[..i + 1] == bytes[..i] + [bytes[i]];
      FeedSnoc(parser.em, f0, bytes[..i], bytes[i]);
      assert [bytes[i]][1..] == [];
      parser.Process([bytes[i]]);
      var query := responder.Advance(bytes[i]);
      if query.None? { continue; }
      payload, answered, cursorReported :=
        AnswerOn(parser.em, parser.screen, query.value, payload, answered, cursorReported);
    }
    assert bytes[..|bytes|] == bytes;
  }
}

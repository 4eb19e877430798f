/**
What a daemon that keeps to the protocol gets across: output in order is taken
whole, a replay in order is committed whole, and a lease ends only for a reason.
*/
module OutputDelivery {
  import opened Primitives
  import opened PaneTable
  import opened AttachProtocol

  // ---- live output ----------------------------------------------------------

  /** A message that ends the attachment of a pane held under `lease`, `expected` being the next sequence. */
  predicate EndsLease(m: ServerMessage, pane: u64, lease: u64, expected: u64) {
    match m
    case PtyOutput(p, l, sequence, bytes) =>
      p == pane && l == lease && (sequence != expected || sequence + |bytes| > U64_MAX)
    case PaneExited(p, l, _) => p == pane && l == lease
    case TakenOver(p, l) => p == pane && l == lease
    case LeaseRejected(p, l, writeRefused) => p == pane && l == lease && !writeRefused
    case _ => false
  }

  /** The output a message adds to a pane held under `lease`. */
  function Delivered(m: ServerMessage, pane: u64, lease: u64, expected: u64): seq<byte> {
    if m.PtyOutput? && m.pane == pane && m.lease == lease && !EndsLease(m, pane, lease, expected) then m.bytes else []
  }

  /**
  A running terminal stops running on exactly the messages above, and otherwise
  its log and its watermark grow by exactly what the message delivers.
  */
  lemma StopsRunningExactlyWhen(t: Table, m: ServerMessage, key: PtyKey)
    requires Inverse(t) && IsRunning(t, key)
    ensures var p, q := Entry(t, key), Entry(HandleMessage(t, m), key);
            var pane, lease, expected := WireId(key), p.lease.value, p.expected.value;
            && (!IsRunning(HandleMessage(t, m), key) <==> EndsLease(m, pane, lease, expected))
            && q.log == p.log + Delivered(m, pane, lease, expected)
            && (IsRunning(HandleMessage(t, m), key) ==>
                  q.lease == p.lease && q.expected == Some(expected + |Delivered(m, pane, lease, expected)|))
  {
    var p := Entry(t, key);
    assert p.log + [] == p.log;
    assert LeaseOf(t, WireId(key)) == p.lease;
    if m.PtyOutput? && LeaseOf(t, m.pane) == Some(m.lease) && t.index[m.pane] == key {
      assert m.pane == WireId(key);
    }
  }

  /** A stream put out in chunks from offset `from`. */
  function InOrder(pane: u64, lease: u64, from: u64, chunks: seq<seq<byte>>): seq<ServerMessage>
    requires from + |Concat(chunks)| <= U64_MAX
    decreases |chunks|
  {
    if chunks == [] then []
    else [PtyOutput(pane, lease, from, chunks[0])] + InOrder(pane, lease, from + |chunks[0]|, chunks[1..])
  }

  lemma {:induction false} HandleFirst(t: Table, m: ServerMessage, rest: seq<ServerMessage>)
    ensures HandleAll(t, [m] + rest) == HandleAll(HandleMessage(t, m), rest)
    decreases |rest|
  {
    if rest == [] {
      assert [m] + rest == [m] && [m][..0] == [];
    } else {
      var ms := [m] + rest;
      assert ms[..|ms| - 1] == [m] + rest[..|rest| - 1];
      HandleFirst(t, m, rest[..|rest| - 1]);
    }
  }

  function Longer(p: PtyPane, bytes: seq<byte>): PtyPane
    requires p.expected.Some? && p.expected.value + |bytes| <= U64_MAX
  {
    p.(expected := Some(p.expected.value + |bytes|), log := p.log + bytes, shown := p.shown + bytes)
  }

  lemma LongerTwice(p: PtyPane, a: seq<byte>, b: seq<byte>)
    requires p.expected.Some? && p.expected.value + |a| + |b| <= U64_MAX
    ensures Longer(Longer(p, a), b) == Longer(p, a + b)
  {
    assert p.log + a + b == p.log + (a + b);
    assert p.shown + a + b == p.shown + (a + b);
  }

  lemma LongerByNothing(p: PtyPane)
    requires p.expected.Some?
    ensures Longer(p, []) == p
  {
    assert p.log + [] == p.log && p.shown + [] == p.shown;
  }

  /** However a stream is cut into messages, a running terminal takes all of it, and no other pane changes. */
  lemma {:induction false} StreamIsTakenWhole(t: Table, key: PtyKey, chunks: seq<seq<byte>>)
    requires Inverse(t) && IsRunning(t, key)
    requires Entry(t, key).expected.value + |Concat(chunks)| <= U64_MAX
    ensures var p := Entry(t, key);
            HandleAll(t, InOrder(WireId(key), p.lease.value, p.expected.value, chunks))
            == Put(t, key, Longer(p, Concat(chunks)))
    decreases |chunks|
  {
    var p := Entry(t, key);
    if chunks == [] {
      LongerByNothing(p);
      assert t.panes[key := p] == t.panes;
    } else {
      var m := PtyOutput(WireId(key), p.lease.value, p.expected.value, chunks[0]);
      var u := HandleMessage(t, m);
      assert LeaseOf(t, WireId(key)) == p.lease;
      assert u == Put(t, key, Longer(p, chunks[0]));
      MessageKeepsInverse(t, m);
      StreamIsTakenWhole(u, key, chunks[1..]);
      HandleFirst(t, m, InOrder(WireId(key), p.lease.value, p.expected.value + |chunks[0]|, chunks[1..]));
      LongerTwice(p, chunks[0], Concat(chunks[1..]));
      assert t.panes[key := Longer(p, chunks[0])][key := Longer(p, Concat(chunks))]
             == t.panes[key := Longer(p, Concat(chunks))];
    }
  }

  // ---- replays --------------------------------------------------------------

  function ReplayChunks(rq: Request, lease: u64, from: u64, chunks: seq<seq<byte>>): seq<Received>
    requires from + |Concat(chunks)| <= U64_MAX
    decreases |chunks|
  {
    if chunks == [] then []
    else
      [Got(ReplayChunk(rq.id, WireId(rq.key), lease, from, chunks[0]))]
      + ReplayChunks(rq, lease, from + |chunks[0]|, chunks[1..])
  }

  /** Acceptance, the replay of everything from `first` on, and its end. */
  function WholeReplay(rq: Request, lease: u64, first: u64, chunks: seq<seq<byte>>): seq<Received>
    requires first + |Concat(chunks)| <= U64_MAX
  {
    var pane, watermark := WireId(rq.key), first + |Concat(chunks)|;
    [Got(AttachAccepted(rq.id, pane, pane, lease))]
    + ([Got(ReplayBegin(rq.id, pane, lease, first, watermark, first))]
       + (ReplayChunks(rq, lease, first, chunks) + [Got(ReplayEnd(rq.id, pane, lease, watermark))]))
  }

  function Collecting(lease: u64, first: u64, bytes: seq<byte>, watermark: u64): Attaching
    requires first + |bytes| <= U64_MAX
  {
    Attaching(Some(lease), Some(first + |bytes|), Some(watermark), bytes, first)
  }

  lemma {:induction false} ChunksAreCollected(t: Table, rq: Request, lease: u64, first: u64, done: seq<byte>,
                                              chunks: seq<seq<byte>>, watermark: u64, rest: seq<Received>)
    requires first + |done| + |Concat(chunks)| <= watermark
    ensures AttachFrom(t, rq, Collecting(lease, first, done, watermark),
                       ReplayChunks(rq, lease, first + |done|, chunks) + rest)
            == AttachFrom(t, rq, Collecting(lease, first, done + Concat(chunks), watermark), rest)
    decreases |chunks|
  {
    if chunks == [] {
      assert done + [] == done && [] + rest == rest;
    } else {
      var chunk := Got(ReplayChunk(rq.id, WireId(rq.key), lease, first + |done|, chunks[0]));
      var later := ReplayChunks(rq, lease, first + |done| + |chunks[0]|, chunks[1..]);
      assert [chunk] + later + rest == [chunk] + (later + rest);
      AttachMore(t, rq, Collecting(lease, first, done, watermark), chunk, later + rest);
      ChunksAreCollected(t, rq, lease, first, done + chunks[0], chunks[1..], watermark, rest);
      assert done + chunks[0] + Concat(chunks[1..]) == done + Concat(chunks);
    }
  }

  /** The end of a replay all collected. */
  lemma EndCommits(t: Table, rq: Request, lease: u64, first: u64, bytes: seq<byte>)
    requires first + |bytes| <= U64_MAX
    ensures var watermark := first + |bytes|;
            var st := Collecting(lease, first, bytes, watermark);
            AttachFrom(t, rq, st, [Got(ReplayEnd(rq.id, WireId(rq.key), lease, watermark))])
            == Outcome(Commit(t, rq.key, st, lease, watermark), Attached)
  {
  }

  /** What precedes the chunks. */
  lemma BeginIsCollected(t: Table, rq: Request, lease: u64, first: u64, watermark: u64, rest: seq<Received>)
    requires first <= watermark
    ensures var pane := WireId(rq.key);
            AttachFrom(t, rq, STARTED, [Got(AttachAccepted(rq.id, pane, pane, lease))]
                                       + ([Got(ReplayBegin(rq.id, pane, lease, first, watermark, first))] + rest))
            == AttachFrom(t, rq, Collecting(lease, first, [], watermark), rest)
  {
    var pane := WireId(rq.key);
    var begun := Got(ReplayBegin(rq.id, pane, lease, first, watermark, first));
    AttachMore(t, rq, STARTED, Got(AttachAccepted(rq.id, pane, pane, lease)), [begun] + rest);
    AttachMore(t, rq, STARTED.(lease := Some(lease)), begun, rest);
  }

  lemma ReplayEndsInCommit(t: Table, rq: Request, lease: u64, first: u64, chunks: seq<seq<byte>>)
    requires first + |Concat(chunks)| <= U64_MAX
    ensures var watermark := first + |Concat(chunks)|;
            AttachFrom(t, rq, STARTED, WholeReplay(rq, lease, first, chunks))
            == Outcome(Commit(t, rq.key, Collecting(lease, first, Concat(chunks), watermark), lease, watermark),
                       Attached)
  {
    var watermark := first + |Concat(chunks)|;
    var ended := [Got(ReplayEnd(rq.id, WireId(rq.key), lease, watermark))];
    BeginIsCollected(t, rq, lease, first, watermark, ReplayChunks(rq, lease, first, chunks) + ended);
    FromTheFirst(t, rq, lease, first, chunks, watermark, ended);
    EndCommits(t, rq, lease, first, Concat(chunks));
  }

  lemma FromTheFirst(t: Table, rq: Request, lease: u64, first: u64, chunks: seq<seq<byte>>, watermark: u64,
                     rest: seq<Received>)
    requires first + |Concat(chunks)| <= watermark
    ensures AttachFrom(t, rq, Collecting(lease, first, [], watermark), ReplayChunks(rq, lease, first, chunks) + rest)
            == AttachFrom(t, rq, Collecting(lease, first, Concat(chunks), watermark), rest)
  {
    ChunksAreCollected(t, rq, lease, first, [], chunks, watermark, rest);
    assert [] + Concat(chunks) == Concat(chunks);
  }

  /**
  A replay in order, however cut into chunks, makes the attach succeed, and the
  pane gets exactly its bytes, with the lease and the watermark at their end.
  */
  lemma ReplayIsCommittedWhole(t: Table, rq: Request, lease: u64, first: u64, chunks: seq<seq<byte>>)
    requires first + |Concat(chunks)| <= U64_MAX
    ensures var p := Entry(t, rq.key);
            AttachFrom(t, rq, STARTED, WholeReplay(rq, lease, first, chunks))
            == Outcome(Put(t, rq.key, p.(lease := Some(lease), expected := Some(first + |Concat(chunks)|),
                                         grantedBy := t.daemon, grantedOn := t.connection, first := first,
                                         log := Concat(chunks), shown := p.shown + Concat(chunks))),
                       Attached)
  {
    ReplayEndsInCommit(t, rq, lease, first, chunks);
  }
}

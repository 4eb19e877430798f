/**
A lease granted on the connection an attach is made on: the daemon takes it over
on that same connection, and the fault that left it behind repeats.
*/
module AttachFaults {
  import opened Primitives
  import opened PaneTable
  import opened AttachProtocol
  import opened OutputDelivery
  import opened HeldLease
  import opened Reattachment

  // ---- one more attach ------------------------------------------------------

  /** What the held lease comes to while a faulty pane is attached to again. */
  function HeldMeanwhile(t: Table, rq: Request, script: seq<Received>): Hold
    requires Faulty(t, rq.key)
  {
    var p := Entry(t, rq.key);
    FollowAll(Holding(p.lease.value, p.expected.value, []), WireId(rq.key),
              Heard(BoundAgain(t, rq.key), rq, Written, script))
  }

  /**
  From a faulty pane every attach that succeeds runs the terminal if and only if
  the lease it held was not ended meanwhile; otherwise the pane is faulty again.
  Either way it shows the output under that lease and then the replay.
  */
  lemma FaultRepeatsIff(t: Table, rq: Request, script: seq<Received>)
    requires Kept(t, rq.key) && Faulty(t, rq.key) && Entry(t, rq.key).identity.Some?
    ensures var o := AttachExisting(t, rq, Written, script);
            var h := HeldMeanwhile(t, rq, script);
            o.result == Attached ==>
              && (IsRunning(o.table, rq.key) <==> !h.Ended?)
              && (Faulty(o.table, rq.key) <==> h.Ended?)
              && Entry(o.table, rq.key).shown == h.shown + Entry(o.table, rq.key).log
  {
    var u := BoundAgain(t, rq.key);
    BoundAgainIsReady(t, rq.key);
    AttachExistingEndsAs(t, rq, Written, script);
    PerformFollows(u, rq, Written, script, HoldOf(u.panes[rq.key]));
  }

  /** Once the daemon takes the held lease over, whatever follows: success leaves the terminal unbound again. */
  lemma TakeoverRepeatsTheFault(t: Table, rq: Request, rest: seq<Received>)
    requires Kept(t, rq.key) && Faulty(t, rq.key) && Entry(t, rq.key).identity.Some?
    ensures var script := [Got(TakenOver(WireId(rq.key), Entry(t, rq.key).lease.value))] + rest;
            var o := AttachExisting(t, rq, Written, script);
            o.result == Attached ==> Faulty(o.table, rq.key) && !IsRunning(o.table, rq.key)
  {
    var script := [Got(TakenOver(WireId(rq.key), Entry(t, rq.key).lease.value))] + rest;
    var heard := Heard(BoundAgain(t, rq.key), rq, Written, script);
    FaultRepeatsIff(t, rq, script);
    assert heard[0] == script[0];
    EndedStays(Ended([]), WireId(rq.key), heard[1..]);
  }

  /** The takeover the daemon sends, then the replay under the lease it grants. */
  function TakeoverScript(rq: Request, held: u64, lease: u64, first: u64, chunks: seq<seq<byte>>): seq<Received>
    requires first + |Concat(chunks)| <= U64_MAX
  {
    [Got(TakenOver(WireId(rq.key), held))] + WholeReplay(rq, lease, first, chunks)
  }

  /** And it does succeed: no rejection, nothing the daemon may not send, any replay under any later lease. */
  lemma TakeoverLeavesItUnbound(t: Table, rq: Request, lease: u64, first: u64, chunks: seq<seq<byte>>)
    requires Kept(t, rq.key) && Faulty(t, rq.key) && Entry(t, rq.key).identity.Some?
    requires Entry(t, rq.key).lease.value < lease && first + |Concat(chunks)| <= U64_MAX
    ensures var held := Entry(t, rq.key).lease;
            var script := TakeoverScript(rq, held.value, lease, first, chunks);
            var o := AttachExisting(t, rq, Written, script);
            && Sendable(t, rq, Written, script) && Unrejected(script, rq, held)
            && o.result == Attached && Faulty(o.table, rq.key) && !IsRunning(o.table, rq.key)
            && Entry(o.table, rq.key).lease == Some(lease) && Entry(o.table, rq.key).log == Concat(chunks)
  {
    var u, held := BoundAgain(t, rq.key), Entry(t, rq.key).lease.value;
    BoundAgainIsReady(t, rq.key);
    EndingThenReplay(u, rq, TakenOver(WireId(rq.key), held), held, lease, first, chunks);
    AttachExistingEndsAs(t, rq, Written, TakeoverScript(rq, held, lease, first, chunks));
    TakeoverIsSendable(rq, held, lease, first, chunks);
  }

  lemma TakeoverIsSendable(rq: Request, held: u64, lease: u64, first: u64, chunks: seq<seq<byte>>)
    requires held < lease && first + |Concat(chunks)| <= U64_MAX
    ensures var script := TakeoverScript(rq, held, lease, first, chunks);
            DeliverableScript(script, rq, Some(held), true) && Unrejected(script, rq, Some(held))
  {
    ReplayIsSendable(rq, held, lease, first, chunks);
  }

  lemma RejectionIsSendable(rq: Request, held: u64, lease: u64, first: u64, chunks: seq<seq<byte>>)
    requires held < lease && first + |Concat(chunks)| <= U64_MAX
    ensures DeliverableScript(RejectionScript(rq, held, lease, first, chunks), rq, Some(held), false)
  {
    ReplayIsSendable(rq, held, lease, first, chunks);
  }

  lemma ReplayIsSendable(rq: Request, held: u64, lease: u64, first: u64, chunks: seq<seq<byte>>)
    requires held < lease && first + |Concat(chunks)| <= U64_MAX
    ensures var replay := WholeReplay(rq, lease, first, chunks);
            DeliverableScript(replay, rq, Some(held), false) && Unrejected(replay, rq, Some(held))
  {
    ChunksAreReplies(rq, lease, first, chunks);
  }

  lemma {:induction false} ChunksAreReplies(rq: Request, lease: u64, from: u64, chunks: seq<seq<byte>>)
    requires from + |Concat(chunks)| <= U64_MAX
    ensures forall r :: r in ReplayChunks(rq, lease, from, chunks) ==> r.Got? && r.message.ReplayChunk?
    decreases |chunks|
  {
    if chunks != [] { ChunksAreReplies(rq, lease, from + |chunks[0]|, chunks[1..]); }
  }

  // ---- attach after attach --------------------------------------------------

  datatype Try = Try(id: u64, script: seq<Received>)

  function AfterTry(t: Table, key: PtyKey, a: Try): Outcome {
    AttachExisting(t, Request(a.id, key), Written, a.script)
  }

  function AfterTries(t: Table, key: PtyKey, tries: seq<Try>): Table
    decreases |tries|
  {
    if tries == [] then t else AfterTries(AfterTry(t, key, tries[0]).table, key, tries[1..])
  }

  /** Each attach succeeds, the daemon having first taken over the lease then held. */
  predicate TakenOverEachTime(t: Table, key: PtyKey, tries: seq<Try>)
    decreases |tries|
  {
    tries != [] ==>
      && Entry(t, key).lease.Some? && tries[0].script != []
      && tries[0].script[0] == Got(TakenOver(WireId(key), Entry(t, key).lease.value))
      && AfterTry(t, key, tries[0]).result == Attached
      && TakenOverEachTime(AfterTry(t, key, tries[0]).table, key, tries[1..])
  }

  /** On that connection no number of successful attaches gets the terminal running. */
  lemma {:induction false} FaultPersists(t: Table, key: PtyKey, tries: seq<Try>)
    requires Kept(t, key) && Faulty(t, key) && Entry(t, key).identity.Some?
    requires TakenOverEachTime(t, key, tries)
    ensures Faulty(AfterTries(t, key, tries), key) && !IsRunning(AfterTries(t, key, tries), key)
    decreases |tries|
  {
    if tries != [] {
      var rq, script, u := Request(tries[0].id, key), tries[0].script, AfterTry(t, key, tries[0]).table;
      assert script == [script[0]] + script[1..];
      TakeoverRepeatsTheFault(t, rq, script[1..]);
      AttachExistingKeeps(t, rq, Written, script);
      assert Kept(u, key);
      FaultPersists(u, key, tries[1..]);
    }
  }

  // ---- what an attach keeps -------------------------------------------------

  /** The panes, the bindings and what is known of the key's identity and the daemon. */
  ghost predicate Keeps(t: Table, u: Table, key: PtyKey) {
    && Inverse(u) && (forall k :: k in u.panes ==> Durable(k)) && (t.daemon.Some? ==> u.daemon.Some?)
    && Entry(u, key).identity == Entry(t, key).identity
    && (Watermarked(Entry(t, key)) ==> Watermarked(Entry(u, key)))
  }

  lemma MessageKeeps(t: Table, m: ServerMessage, key: PtyKey)
    requires Inverse(t) && forall k :: k in t.panes ==> Durable(k)
    ensures Keeps(t, HandleMessage(t, m), key)
  {
    MessageKeepsInverse(t, m);
    MessageKeepsDaemon(t, m);
    assert forall k :: k in HandleMessage(t, m).panes ==> k in t.panes.Keys;
    if key in t.panes {
      MessageTells(t, m, key);
      ToldKeeps(t.panes[key], WireId(key), m);
    } else {
      assert key !in HandleMessage(t, m).panes.Keys;
    }
  }

  lemma MessageKeepsDaemon(t: Table, m: ServerMessage)
    ensures HandleMessage(t, m).daemon == t.daemon
  {
  }

  lemma ToldKeeps(p: PtyPane, pane: u64, m: ServerMessage)
    ensures Told(p, pane, m).identity == p.identity && (Watermarked(p) ==> Watermarked(Told(p, pane, m)))
  {
  }

  lemma ResumeKeeps(t: Table, resumption: Resumption, key: PtyKey)
    requires Inverse(t) && forall k :: k in t.panes ==> Durable(k)
    ensures Keeps(t, Resume(t, resumption).table, key)
  {
  }

  lemma PutKeeps(t: Table, key: PtyKey, p: PtyPane)
    requires Inverse(t) && Durable(key) && forall k :: k in t.panes ==> Durable(k)
    requires p.attachment == Entry(t, key).attachment && p.identity == Entry(t, key).identity && Watermarked(p)
    ensures Keeps(t, Put(t, key, p), key)
  {
    PutKeepsInverse(t, key, p);
  }

  lemma WithoutReplyKeeps(t: Table, rq: Request, r: Received)
    requires Inverse(t) && Durable(rq.key) && forall k :: k in t.panes ==> Durable(k)
    ensures Keeps(t, WithoutReply(t, rq, r), rq.key)
  {
    if r.Got? {
      MessageKeeps(t, r.message, rq.key);
    } else if r.Lost? {
      var u := Resume(t, r.resumption).table;
      ResumeKeeps(t, r.resumption, rq.key);
      PutKeeps(u, rq.key, Entry(Restarted(u, rq.key), rq.key));
    }
  }

  /** The step that succeeds puts the pane back, bound as it was. */
  lemma SuccessIsPut(t: Table, rq: Request, st: Attaching, r: Received)
    requires AttachStep(t, rq, st, r) == Finished(AttachStep(t, rq, st, r).table, Attached)
    ensures var u := AttachStep(t, rq, st, r).table;
            var p := Entry(u, rq.key);
            && u == Put(t, rq.key, p) && Watermarked(p)
            && p.attachment == Entry(t, rq.key).attachment && p.identity == Entry(t, rq.key).identity
  {
  }

  lemma StepKeeps(t: Table, rq: Request, st: Attaching, r: Received)
    requires Inverse(t) && Durable(rq.key) && forall k :: k in t.panes ==> Durable(k)
    ensures Keeps(t, AttachStep(t, rq, st, r).table, rq.key)
  {
    var u := AttachStep(t, rq, st, r).table;
    if AttachStep(t, rq, st, r) == Finished(u, Attached) {
      SuccessIsPut(t, rq, st, r);
      PutKeeps(t, rq.key, Entry(u, rq.key));
    } else {
      StepIgnoresReplies(t, rq, st, r);
      WithoutReplyKeeps(t, rq, r);
    }
  }

  lemma {:induction false} AttachFromKeeps(t: Table, rq: Request, st: Attaching, script: seq<Received>)
    requires Inverse(t) && Durable(rq.key) && forall k :: k in t.panes ==> Durable(k)
    ensures Keeps(t, AttachFrom(t, rq, st, script).table, rq.key)
    decreases |script|
  {
    if script != [] {
      var step := AttachStep(t, rq, st, script[0]);
      StepKeeps(t, rq, st, script[0]);
      if step.More? { AttachFromKeeps(step.table, rq, step.collected, script[1..]); }
    }
  }

  lemma PerformKeeps(t: Table, rq: Request, opening: Opening, script: seq<Received>)
    requires Inverse(t) && Durable(rq.key) && forall k :: k in t.panes ==> Durable(k)
    ensures Keeps(t, PerformAttach(t, rq, opening, script).table, rq.key)
  {
    var u := Awaiting(t, opening);
    if opening.Reopened? { ResumeKeeps(t, opening.resumption, rq.key); }
    AttachFromKeeps(u, rq, STARTED, script);
  }

  lemma SettledKeeps(t: Table, o: Outcome, key: PtyKey)
    requires Keeps(t, o.table, key)
    ensures Keeps(t, Settled(o, key).table, key)
  {
    ClearKeepsInverse(o.table, WireId(key));
  }

  lemma AttachExistingKeeps(t: Table, rq: Request, opening: Opening, script: seq<Received>)
    requires Kept(t, rq.key)
    ensures Keeps(t, AttachExisting(t, rq, opening, script).table, rq.key)
  {
    if !IsRunning(t, rq.key) && Entry(t, rq.key).identity.Some? {
      var u := BoundAgain(t, rq.key);
      BoundAgainIsReady(t, rq.key);
      PerformKeeps(u, rq, opening, script);
      SettledKeeps(u, PerformAttach(u, rq, opening, script), rq.key);
    }
  }

  // ---- what protects the screen ---------------------------------------------

  /**
  The client itself does not keep old output off the screen: were the next byte
  under the held lease to arrive on this connection, it would stand there ahead
  of every replay under a later lease. The daemon sends it here exactly when it
  granted the lease here.
  */
  lemma OldOutputWouldReachTheScreen(t: Table, rq: Request, d: Streams, lease: u64, first: u64, chunks: seq<seq<byte>>)
    requires Inverse(t) && Bound(t, rq.key) && t.daemon.Some?
    requires var p := t.panes[rq.key];
             && p.identity.Some? && p.lease.Some? && p.expected.Some? && p.lease.value < lease
             && p.expected.value < U64_MAX && p.expected.value < |d(WireId(rq.key), p.lease.value)|
    requires first + |Concat(chunks)| <= U64_MAX
    ensures var p := t.panes[rq.key];
            var next := d(WireId(rq.key), p.lease.value)[p.expected.value];
            var late := PtyOutput(WireId(rq.key), p.lease.value, p.expected.value, [next]);
            var o := Reattach(t, rq, Written, [Got(late)] + WholeReplay(rq, lease, first, chunks));
            && Honest(late, d) && (Deliverable(late, rq, p.lease, GrantedHere(t, rq.key)) <==> GrantedHere(t, rq.key))
            && o.result == Attached && IsRunning(o.table, rq.key)
            && Entry(o.table, rq.key).shown == [next] + Entry(o.table, rq.key).log
  {
    var pane, u, p := WireId(rq.key), ResetParser(t, rq.key), t.panes[rq.key];
    var stream := d(pane, p.lease.value);
    var late := PtyOutput(pane, p.lease.value, p.expected.value, [stream[p.expected.value]]);
    assert stream[p.expected.value..p.expected.value + 1] == [stream[p.expected.value]];
    assert LeaseOf(u, pane) == p.lease;
    var v := HandleMessage(u, late);
    assert [] + [stream[p.expected.value]] == [stream[p.expected.value]];
    ReplayIsCommittedWhole(v, rq, lease, first, chunks);
    AttachMore(u, rq, STARTED, Got(late), WholeReplay(rq, lease, first, chunks));
  }
}

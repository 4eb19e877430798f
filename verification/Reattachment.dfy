/**
When an attach that reports success leaves the terminal running and showing
exactly the replay, given what the daemon can send to the connection it is made on.
*/
module Reattachment {
  import opened Primitives
  import opened PaneTable
  import opened AttachProtocol
  import opened OutputDelivery
  import opened HeldLease

  // ---- what the daemon can send ---------------------------------------------

  /**
  What can reach an attach begun while `held` is a lease granted before. Leases
  are granted in increasing order and never twice. Output, exit and takeover
  under a lease go to the connection it was granted on: `here` says that it is
  the one this attach is made on. A rejection goes to whoever used the lease.
  */
  predicate Deliverable(m: ServerMessage, rq: Request, held: Option<u64>, here: bool) {
    match m
    case AttachAccepted(request, _, _, lease) => request == rq.id && held.Some? ==> lease > held.value
    case PtyOutput(pane, lease, _, _) => pane == WireId(rq.key) && held == Some(lease) ==> here
    case PaneExited(pane, lease, _) => pane == WireId(rq.key) && held == Some(lease) ==> here
    case TakenOver(pane, lease) => pane == WireId(rq.key) && held == Some(lease) ==> here
    case _ => true
  }

  predicate DeliverableScript(script: seq<Received>, rq: Request, held: Option<u64>, here: bool) {
    forall r :: r in script && r.Got? ==> Deliverable(r.message, rq, held, here)
  }

  predicate DeliverableAll(ms: seq<ServerMessage>, rq: Request, held: Option<u64>, here: bool) {
    forall m :: m in ms ==> Deliverable(m, rq, held, here)
  }

  /** What an attach from this table can receive; a first write that had to reconnect leaves no lease of its own. */
  predicate Sendable(t: Table, rq: Request, opening: Opening, script: seq<Received>) {
    DeliverableScript(script, rq, Entry(t, rq.key).lease, GrantedHere(t, rq.key) && opening.Written?)
  }

  // ---- how an attach can end ------------------------------------------------

  /** Success means the screen is the replay. */
  predicate Replayed(o: Outcome, key: PtyKey) {
    o.result == Attached ==> Entry(o.table, key).shown == Entry(o.table, key).log
  }

  /** And that the terminal runs. */
  predicate Clean(o: Outcome, key: PtyKey) {
    Replayed(o, key) && (o.result == Attached ==> IsRunning(o.table, key))
  }

  predicate Bound(t: Table, key: PtyKey) {
    key in t.panes && t.panes[key].attachment == Some(WireId(key))
  }

  /** A pane bound for an attach, its screen empty. */
  ghost predicate Ready(t: Table, key: PtyKey) {
    Inverse(t) && Bound(t, key) && Watermarked(t.panes[key]) && t.panes[key].shown == []
  }

  // ---- under a lease of an earlier connection -------------------------------

  /** The daemon refuses what was sent under the held lease. */
  predicate Rejects(r: Received, rq: Request, held: Option<u64>) {
    && r.Got? && r.message.LeaseRejected? && r.message.pane == WireId(rq.key) && held == Some(r.message.lease)
    && !r.message.writeRefused
  }

  predicate Unrejected(script: seq<Received>, rq: Request, held: Option<u64>) {
    forall r :: r in script ==> !Rejects(r, rq, held)
  }

  /** A lease of an earlier connection shows nothing, and only a rejection ends it. */
  lemma {:induction false} EarlierLeaseIsQuiet(h: Hold, rq: Request, script: seq<Received>, held: Option<u64>)
    requires h.shown == [] && !h.Ended? && (h.Holding? ==> held == Some(h.lease))
    requires DeliverableScript(script, rq, held, false)
    ensures FollowAll(h, WireId(rq.key), script).shown == []
    ensures Unrejected(script, rq, held) ==> !FollowAll(h, WireId(rq.key), script).Ended?
    decreases |script|
  {
    if script != [] {
      assert script[0] in script;
      var next := FollowOne(h, WireId(rq.key), script[0]);
      if next.Ended? {
        assert Rejects(script[0], rq, held);
        EndedShowsTheSame(WireId(rq.key), script[1..]);
      } else {
        EarlierLeaseIsQuiet(next, rq, script[1..], held);
      }
    }
  }

  lemma {:induction false} EndedShowsTheSame(pane: u64, rs: seq<Received>)
    ensures FollowAll(Ended([]), pane, rs) == Ended([])
    decreases |rs|
  {
    if rs != [] { EndedShowsTheSame(pane, rs[1..]); }
  }

  /**
  Holding no lease, or one of an earlier connection: whatever the daemon can
  send, success shows exactly the replay, and the terminal runs unless the
  daemon rejected that lease meanwhile.
  */
  lemma AttachIsReplayed(t: Table, rq: Request, opening: Opening, script: seq<Received>)
    requires Ready(t, rq.key) && Sendable(t, rq, opening, script)
    requires GrantedHere(t, rq.key) ==> !opening.Written?
    ensures var o := PerformAttach(t, rq, opening, script);
            && Replayed(o, rq.key)
            && (Unrejected(Heard(t, rq, opening, script), rq, t.panes[rq.key].lease) ==> Clean(o, rq.key))
  {
    var h, heard := HoldOf(t.panes[rq.key]), Heard(t, rq, opening, script);
    PerformFollows(t, rq, opening, script, h);
    EarlierLeaseIsQuiet(h, rq, heard, t.panes[rq.key].lease);
    ShowsTheReplay(PerformAttach(t, rq, opening, script), rq.key, FollowAll(h, WireId(rq.key), heard));
  }

  /** Nothing shown under a lease leaves the replay alone on screen. */
  lemma ShowsTheReplay(o: Outcome, key: PtyKey, h: Hold)
    requires SucceedsAs(o, key, h) && h.shown == []
    ensures Replayed(o, key) && (!h.Ended? ==> Clean(o, key))
  {
    assert [] + Entry(o.table, key).log == Entry(o.table, key).log;
  }

  // ---- under any lease ------------------------------------------------------

  /** Under the last lease there is, no later one can be granted. */
  lemma {:induction false} NothingAboveTheLastLease(t: Table, rq: Request, st: Attaching, script: seq<Received>,
                                                    here: bool)
    requires st.lease.None? && DeliverableScript(script, rq, Some(U64_MAX), here)
    ensures AttachFrom(t, rq, st, script).result != Attached
    decreases |script|
  {
    if script != [] {
      assert script[0] in script;
      var step := AttachStep(t, rq, st, script[0]);
      if step.More? {
        NothingAboveTheLastLease(step.table, rq, step.collected, script[1..], here);
      }
    }
  }

  lemma NoAttachUnderTheLastLease(t: Table, rq: Request, opening: Opening, script: seq<Received>, here: bool)
    requires DeliverableScript(script, rq, Some(U64_MAX), here)
    ensures PerformAttach(t, rq, opening, script).result != Attached
  {
    NothingAboveTheLastLease(Awaiting(t, opening), rq, STARTED, script, here);
  }

  /** The held lease can still be rejected, and another granted after it. */
  predicate CanBeRejected(held: Option<u64>) {
    held.Some? && held.value < U64_MAX
  }

  ghost predicate AlwaysClean(t: Table, rq: Request) {
    forall opening: Opening, script: seq<Received> ::
      Sendable(t, rq, opening, script) ==> Clean(PerformAttach(t, rq, opening, script), rq.key)
  }

  /** Without a lease that can be rejected, an attach is clean whatever the daemon can send. */
  lemma UnheldIsClean(t: Table, rq: Request, opening: Opening, script: seq<Received>, here: bool)
    requires Ready(t, rq.key) && !CanBeRejected(t.panes[rq.key].lease)
    requires DeliverableScript(script, rq, t.panes[rq.key].lease, here)
    ensures Clean(PerformAttach(t, rq, opening, script), rq.key)
  {
    var o := PerformAttach(t, rq, opening, script);
    if t.panes[rq.key].lease.None? {
      PerformFollows(t, rq, opening, script, Dropped([]));
      DroppedStays(WireId(rq.key), Heard(t, rq, opening, script));
      ShowsTheReplay(o, rq.key, Dropped([]));
    } else {
      NoAttachUnderTheLastLease(t, rq, opening, script, here);
    }
  }

  /** A rejection under the held lease, then a whole replay under a later one. */
  function RejectionScript(rq: Request, held: u64, lease: u64, first: u64, chunks: seq<seq<byte>>): seq<Received>
    requires first + |Concat(chunks)| <= U64_MAX
  {
    [Got(LeaseRejected(WireId(rq.key), held, false))] + WholeReplay(rq, lease, first, chunks)
  }

  /**
  The terminal is unbound, yet holds a lease granted on this very connection:
  attaching to it again binds the pane under a lease the daemon is about to take over.
  */
  predicate Faulty(t: Table, key: PtyKey) {
    && Entry(t, key).attachment.None? && Entry(t, key).lease.Some? && Entry(t, key).expected.Some?
    && GrantedHere(t, key)
  }

  /** After such a rejection every replay is taken, and the terminal is left unbound, not running. */
  lemma RejectionLeavesItUnbound(t: Table, rq: Request, held: u64, lease: u64, first: u64, chunks: seq<seq<byte>>)
    requires Inverse(t) && Bound(t, rq.key) && t.panes[rq.key].lease == Some(held) && t.daemon.Some?
    requires first + |Concat(chunks)| <= U64_MAX
    ensures var o := PerformAttach(t, rq, Written, RejectionScript(rq, held, lease, first, chunks));
            && o.result == Attached && Faulty(o.table, rq.key) && o.table.daemon == t.daemon
            && Entry(o.table, rq.key).identity == t.panes[rq.key].identity
            && Entry(o.table, rq.key).lease == Some(lease) && Entry(o.table, rq.key).log == Concat(chunks)
  {
    EndingThenReplay(t, rq, LeaseRejected(WireId(rq.key), held, false), held, lease, first, chunks);
  }

  /** The same for anything that ends the held lease. */
  lemma EndingThenReplay(t: Table, rq: Request, m: ServerMessage, held: u64,
                         lease: u64, first: u64, chunks: seq<seq<byte>>)
    requires Inverse(t) && Bound(t, rq.key) && t.panes[rq.key].lease == Some(held) && t.daemon.Some?
    requires EndsHold(m, WireId(rq.key), held) && first + |Concat(chunks)| <= U64_MAX
    ensures var o := PerformAttach(t, rq, Written, [Got(m)] + WholeReplay(rq, lease, first, chunks));
            && o.result == Attached && Faulty(o.table, rq.key) && o.table.daemon == t.daemon
            && Entry(o.table, rq.key).identity == t.panes[rq.key].identity
            && Entry(o.table, rq.key).lease == Some(lease) && Entry(o.table, rq.key).log == Concat(chunks)
            && Entry(o.table, rq.key).shown == t.panes[rq.key].shown + Concat(chunks)
  {
    var u := HandleMessage(t, m);
    MessageTells(t, m, rq.key);
    ReplayIsCommittedWhole(u, rq, lease, first, chunks);
    AttachMore(t, rq, STARTED, Got(m), WholeReplay(rq, lease, first, chunks));
  }

  /** How the daemon ends the held lease as it grants the next: by a takeover here, or by refusing its use. */
  function Ending(t: Table, key: PtyKey): ServerMessage
    requires Entry(t, key).lease.Some?
  {
    var held := Entry(t, key).lease.value;
    if GrantedHere(t, key) then TakenOver(WireId(key), held) else LeaseRejected(WireId(key), held, false)
  }

  lemma UncleanScript(t: Table, rq: Request, m: ServerMessage) returns (script: seq<Received>)
    requires Ready(t, rq.key) && CanBeRejected(t.panes[rq.key].lease) && t.daemon.Some?
    requires EndsHold(m, WireId(rq.key), t.panes[rq.key].lease.value) && Sendable(t, rq, Written, [Got(m)])
    ensures Sendable(t, rq, Written, script)
    ensures var o := PerformAttach(t, rq, Written, script); o.result == Attached && !IsRunning(o.table, rq.key)
  {
    var held := t.panes[rq.key].lease.value;
    assert Got(m) in [Got(m)];
    script := [Got(m)] + WholeReplay(rq, held + 1, 0, []);
    EndingThenReplay(t, rq, m, held, held + 1, 0, []);
  }

  /** From a bound pane showing nothing, an attach is always clean exactly when no held lease can be rejected. */
  lemma AlwaysCleanIff(t: Table, rq: Request)
    requires Ready(t, rq.key) && (t.panes[rq.key].lease.Some? ==> t.daemon.Some?)
    ensures AlwaysClean(t, rq) <==> !CanBeRejected(t.panes[rq.key].lease)
  {
    var p := t.panes[rq.key];
    if CanBeRejected(p.lease) {
      var script := UncleanScript(t, rq, Ending(t, rq.key));
      assert !Clean(PerformAttach(t, rq, Written, script), rq.key);
    } else {
      forall opening: Opening, script: seq<Received> | Sendable(t, rq, opening, script)
        ensures Clean(PerformAttach(t, rq, opening, script), rq.key)
      {
        UnheldIsClean(t, rq, opening, script, GrantedHere(t, rq.key) && opening.Written?);
      }
    }
  }

  // ---- what the screen shows ------------------------------------------------

  /** Output under the held lease can still reach this connection, and a later lease be granted. */
  predicate CanShowOutput(t: Table, key: PtyKey) {
    GrantedHere(t, key) && Entry(t, key).lease.value < U64_MAX
    && Entry(t, key).expected.Some? && Entry(t, key).expected.value < U64_MAX
  }

  ghost predicate AlwaysReplayed(t: Table, rq: Request) {
    forall opening: Opening, script: seq<Received> ::
      Sendable(t, rq, opening, script) ==> Replayed(PerformAttach(t, rq, opening, script), rq.key)
  }

  /** A lease whose sequences are used up has nothing more to show. */
  lemma {:induction false} FullLeaseIsQuiet(h: Hold, pane: u64, rs: seq<Received>)
    requires h.shown == [] && (h.Holding? ==> h.expected == U64_MAX)
    ensures FollowAll(h, pane, rs).shown == []
    decreases |rs|
  {
    if rs != [] { FullLeaseIsQuiet(FollowOne(h, pane, rs[0]), pane, rs[1..]); }
  }

  /** The next byte under the held lease, its takeover, and a whole replay under a later one. */
  function OutputScript(rq: Request, held: u64, expected: u64, next: byte,
                        lease: u64, first: u64, chunks: seq<seq<byte>>): seq<Received>
    requires first + |Concat(chunks)| <= U64_MAX
  {
    [Got(PtyOutput(WireId(rq.key), held, expected, [next]))]
    + ([Got(TakenOver(WireId(rq.key), held))] + WholeReplay(rq, lease, first, chunks))
  }

  /** It stands on screen ahead of the replay, and the terminal is left unbound. */
  lemma OwnOutputIsShown(t: Table, rq: Request, next: byte, lease: u64, first: u64, chunks: seq<seq<byte>>)
    requires Ready(t, rq.key) && t.daemon.Some? && first + |Concat(chunks)| <= U64_MAX
    requires t.panes[rq.key].lease.Some? && t.panes[rq.key].expected.value < U64_MAX
    ensures var p := t.panes[rq.key];
            var script := OutputScript(rq, p.lease.value, p.expected.value, next, lease, first, chunks);
            var o := PerformAttach(t, rq, Written, script);
            && o.result == Attached && Faulty(o.table, rq.key)
            && Entry(o.table, rq.key).shown == [next] + Entry(o.table, rq.key).log
  {
    var p, pane := t.panes[rq.key], WireId(rq.key);
    var m := PtyOutput(pane, p.lease.value, p.expected.value, [next]);
    var after := [Got(TakenOver(pane, p.lease.value))] + WholeReplay(rq, lease, first, chunks);
    MessageKeepsInverse(t, m);
    MessageTells(t, m, rq.key);
    assert p.shown + [next] == [next];
    EndingThenReplay(HandleMessage(t, m), rq, TakenOver(pane, p.lease.value), p.lease.value, lease, first, chunks);
    AttachMore(t, rq, STARTED, Got(m), after);
  }

  /** The replay alone is on screen after every success, exactly when no output under the held lease can come here. */
  lemma AlwaysReplayedIff(t: Table, rq: Request)
    requires Ready(t, rq.key) && (t.panes[rq.key].lease.Some? ==> t.daemon.Some?)
    ensures AlwaysReplayed(t, rq) <==> !CanShowOutput(t, rq.key)
  {
    var p := t.panes[rq.key];
    if CanShowOutput(t, rq.key) {
      var script := OutputScript(rq, p.lease.value, p.expected.value, 0, p.lease.value + 1, 0, []);
      OwnOutputIsShown(t, rq, 0, p.lease.value + 1, 0, []);
      assert Sendable(t, rq, Written, script);
      assert !Replayed(PerformAttach(t, rq, Written, script), rq.key);
    } else {
      forall opening: Opening, script: seq<Received> | Sendable(t, rq, opening, script)
        ensures Replayed(PerformAttach(t, rq, opening, script), rq.key)
      {
        OutputCannotCome(t, rq, opening, script);
      }
    }
  }

  lemma OutputCannotCome(t: Table, rq: Request, opening: Opening, script: seq<Received>)
    requires Ready(t, rq.key) && !CanShowOutput(t, rq.key) && Sendable(t, rq, opening, script)
    ensures Replayed(PerformAttach(t, rq, opening, script), rq.key)
  {
    var here := GrantedHere(t, rq.key);
    if !CanBeRejected(t.panes[rq.key].lease) {
      UnheldIsClean(t, rq, opening, script, here && opening.Written?);
    } else if here {
      var h, heard := HoldOf(t.panes[rq.key]), Heard(t, rq, opening, script);
      PerformFollows(t, rq, opening, script, h);
      FullLeaseIsQuiet(h, WireId(rq.key), heard);
      ShowsTheReplay(PerformAttach(t, rq, opening, script), rq.key, FollowAll(h, WireId(rq.key), heard));
    } else {
      AttachIsReplayed(t, rq, opening, script);
    }
  }

  // ---- re-attaching and attaching to an existing session ---------------------

  /** The panes of every run: durable keys, and a lease with its watermark from a daemon that is known. */
  ghost predicate Kept(t: Table, key: PtyKey) {
    && Inverse(t) && Durable(key) && (forall k :: k in t.panes ==> Durable(k))
    && Watermarked(Entry(t, key)) && (Entry(t, key).lease.Some? ==> t.daemon.Some?)
  }


  /** The table an attach to an existing session awaits its replies in. */
  function BoundAgain(t: Table, key: PtyKey): Table {
    BindPane(ResetParser(t, key), key, WireId(key))
  }

  lemma ResetIsReady(t: Table, key: PtyKey)
    requires Kept(t, key) && Entry(t, key).attachment.Some?
    ensures Ready(ResetParser(t, key), key)
  {
    PutKeepsInverse(t, key, Entry(ResetParser(t, key), key));
  }

  lemma BoundAgainIsReady(t: Table, key: PtyKey)
    requires Kept(t, key)
    ensures Ready(BoundAgain(t, key), key)
  {
    PutKeepsInverse(t, key, Entry(ResetParser(t, key), key));
    BindKeepsInverse(ResetParser(t, key), key);
  }

  ghost predicate ReattachAlwaysClean(t: Table, rq: Request) {
    forall opening: Opening, script: seq<Received> ::
      Sendable(t, rq, opening, script) ==> Clean(Reattach(t, rq, opening, script), rq.key)
  }

  ghost predicate ReattachAlwaysReplayed(t: Table, rq: Request) {
    forall opening: Opening, script: seq<Received> ::
      Sendable(t, rq, opening, script) ==> Replayed(Reattach(t, rq, opening, script), rq.key)
  }

  /** A re-attachment succeeds as its attach does. */
  lemma ReattachEndsAs(t: Table, rq: Request, opening: Opening, script: seq<Received>)
    requires Entry(t, rq.key).identity.Some?
    ensures var u := ResetParser(t, rq.key);
            && (Sendable(t, rq, opening, script) <==> Sendable(u, rq, opening, script))
            && var o, a := Reattach(t, rq, opening, script), PerformAttach(u, rq, opening, script);
               if a.result == Attached then o == a else o.result != Attached
  {
  }

  /**
  A re-attachment that reports success leaves the terminal running and showing
  exactly the replay, whatever the daemon can send meanwhile, if and only if it
  holds no lease that can still be rejected as it begins.
  */
  lemma ReattachIsCleanIff(t: Table, rq: Request)
    requires Kept(t, rq.key) && Entry(t, rq.key).attachment.Some? && Entry(t, rq.key).identity.Some?
    ensures ReattachAlwaysClean(t, rq) <==> !CanBeRejected(Entry(t, rq.key).lease)
  {
    var u := ResetParser(t, rq.key);
    ResetIsReady(t, rq.key);
    AlwaysCleanIff(u, rq);
    forall opening: Opening, script: seq<Received>
      ensures Sendable(t, rq, opening, script) <==> Sendable(u, rq, opening, script)
      ensures Clean(Reattach(t, rq, opening, script), rq.key) <==> Clean(PerformAttach(u, rq, opening, script), rq.key)
    {
      ReattachEndsAs(t, rq, opening, script);
    }
    if ReattachAlwaysClean(t, rq) { assert AlwaysClean(u, rq); }
    if AlwaysClean(u, rq) { assert ReattachAlwaysClean(t, rq); }
  }

  /** What it shows is the replay alone if and only if it holds no lease of this connection with output to come. */
  lemma ReattachShowsTheReplayIff(t: Table, rq: Request)
    requires Kept(t, rq.key) && Entry(t, rq.key).attachment.Some? && Entry(t, rq.key).identity.Some?
    ensures ReattachAlwaysReplayed(t, rq) <==> !CanShowOutput(t, rq.key)
  {
    var u := ResetParser(t, rq.key);
    ResetIsReady(t, rq.key);
    AlwaysReplayedIff(u, rq);
    forall opening: Opening, script: seq<Received>
      ensures Sendable(t, rq, opening, script) <==> Sendable(u, rq, opening, script)
      ensures Replayed(Reattach(t, rq, opening, script), rq.key)
              <==> Replayed(PerformAttach(u, rq, opening, script), rq.key)
    {
      ReattachEndsAs(t, rq, opening, script);
    }
    if ReattachAlwaysReplayed(t, rq) { assert AlwaysReplayed(u, rq); }
    if AlwaysReplayed(u, rq) { assert ReattachAlwaysReplayed(t, rq); }
  }

  ghost predicate AttachExistingAlwaysClean(t: Table, rq: Request) {
    forall opening: Opening, script: seq<Received> ::
      Sendable(t, rq, opening, script) ==> Clean(AttachExisting(t, rq, opening, script), rq.key)
  }

  ghost predicate AttachExistingAlwaysReplayed(t: Table, rq: Request) {
    forall opening: Opening, script: seq<Received> ::
      Sendable(t, rq, opening, script) ==> Replayed(AttachExisting(t, rq, opening, script), rq.key)
  }

  /** An attach to an existing session succeeds as its attach does. */
  lemma AttachExistingEndsAs(t: Table, rq: Request, opening: Opening, script: seq<Received>)
    requires !IsRunning(t, rq.key) && Entry(t, rq.key).identity.Some?
    ensures var u := BoundAgain(t, rq.key);
            && (Sendable(t, rq, opening, script) <==> Sendable(u, rq, opening, script))
            && var o, a := AttachExisting(t, rq, opening, script), PerformAttach(u, rq, opening, script);
               o.result == a.result && (a.result == Attached ==> o == a)
  {
  }

  /** The same for attaching to a session the client does not have running; it may hold a lease while unbound. */
  lemma AttachExistingIsCleanIff(t: Table, rq: Request)
    requires Kept(t, rq.key) && !IsRunning(t, rq.key) && Entry(t, rq.key).identity.Some?
    ensures AttachExistingAlwaysClean(t, rq) <==> !CanBeRejected(Entry(t, rq.key).lease)
  {
    var u := BoundAgain(t, rq.key);
    BoundAgainIsReady(t, rq.key);
    AlwaysCleanIff(u, rq);
    forall opening: Opening, script: seq<Received>
      ensures Sendable(t, rq, opening, script) <==> Sendable(u, rq, opening, script)
      ensures Clean(AttachExisting(t, rq, opening, script), rq.key)
              <==> Clean(PerformAttach(u, rq, opening, script), rq.key)
    {
      AttachExistingEndsAs(t, rq, opening, script);
    }
    if AttachExistingAlwaysClean(t, rq) { assert AlwaysClean(u, rq); }
    if AlwaysClean(u, rq) { assert AttachExistingAlwaysClean(t, rq); }
  }

  lemma AttachExistingShowsTheReplayIff(t: Table, rq: Request)
    requires Kept(t, rq.key) && !IsRunning(t, rq.key) && Entry(t, rq.key).identity.Some?
    ensures AttachExistingAlwaysReplayed(t, rq) <==> !CanShowOutput(t, rq.key)
  {
    var u := BoundAgain(t, rq.key);
    BoundAgainIsReady(t, rq.key);
    AlwaysReplayedIff(u, rq);
    forall opening: Opening, script: seq<Received>
      ensures Sendable(t, rq, opening, script) <==> Sendable(u, rq, opening, script)
      ensures Replayed(AttachExisting(t, rq, opening, script), rq.key)
              <==> Replayed(PerformAttach(u, rq, opening, script), rq.key)
    {
      AttachExistingEndsAs(t, rq, opening, script);
    }
    if AttachExistingAlwaysReplayed(t, rq) { assert AlwaysReplayed(u, rq); }
    if AlwaysReplayed(u, rq) { assert AttachExistingAlwaysReplayed(t, rq); }
  }
}

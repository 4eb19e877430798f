/**
What a lease held while an attach is under way does to it: the output under that
lease stands before the replay, and whatever ends the lease ends the binding.
*/
module HeldLease {
  import opened Primitives
  import opened PaneTable
  import opened AttachProtocol

  // ---- following a lease through the messages -------------------------------

  /**
  A lease as the messages alone tell of it: held up to `expected`; dropped, or
  never there; or ended, and the binding with it. `shown` is the output under it.
  */
  datatype Hold =
    | Holding(lease: u64, expected: u64, shown: seq<byte>)
    | Dropped(shown: seq<byte>)
    | Ended(shown: seq<byte>)

  /** The daemon takes the lease away, or says that its terminal is gone. */
  predicate EndsHold(m: ServerMessage, pane: u64, lease: u64) {
    match m
    case PaneExited(p, l, _) => p == pane && l == lease
    case TakenOver(p, l) => p == pane && l == lease
    case LeaseRejected(p, l, writeRefused) => p == pane && l == lease && !writeRefused
    case _ => false
  }

  function Follow(h: Hold, pane: u64, m: ServerMessage): Hold {
    if !h.Holding? then h
    else if EndsHold(m, pane, h.lease) then Ended(h.shown)
    else if !(m.PtyOutput? && m.pane == pane && m.lease == h.lease) then h
    else if m.sequence != h.expected || m.sequence + |m.bytes| > U64_MAX then Dropped(h.shown)
    else Holding(h.lease, m.sequence + |m.bytes|, h.shown + m.bytes)
  }

  /** A new connection starts with no lease and an empty screen; it binds nothing. */
  function AfterLoss(h: Hold): Hold {
    if h.Ended? then Ended([]) else Dropped([])
  }

  function FollowOne(h: Hold, pane: u64, r: Received): Hold {
    match r
    case Got(m) => Follow(h, pane, m)
    case Lost(_) => AfterLoss(h)
    case TimedOut => h
  }

  function FollowAll(h: Hold, pane: u64, rs: seq<Received>): Hold
    decreases |rs|
  {
    if rs == [] then h else FollowAll(FollowOne(h, pane, rs[0]), pane, rs[1..])
  }

  lemma {:induction false} EndedStays(h: Hold, pane: u64, rs: seq<Received>)
    requires h.Ended?
    ensures FollowAll(h, pane, rs).Ended?
    decreases |rs|
  {
    if rs != [] { EndedStays(FollowOne(h, pane, rs[0]), pane, rs[1..]); }
  }

  lemma {:induction false} DroppedStays(pane: u64, rs: seq<Received>)
    ensures FollowAll(Dropped([]), pane, rs) == Dropped([])
    decreases |rs|
  {
    if rs != [] { DroppedStays(pane, rs[1..]); }
  }

  // ---- the pane of an attach ------------------------------------------------

  /** Every pane of a run: a lease comes with a watermark. */
  predicate Watermarked(p: PtyPane) {
    p.lease.Some? <==> p.expected.Some?
  }

  function HoldOf(p: PtyPane): Hold
    requires Watermarked(p)
  {
    if p.attachment.None? then Ended(p.shown)
    else if p.lease.None? then Dropped(p.shown)
    else Holding(p.lease.value, p.expected.value, p.shown)
  }

  /** The pane is there, and stands as `h` says. */
  predicate StandsAs(t: Table, key: PtyKey, h: Hold) {
    key in t.panes && Watermarked(t.panes[key]) && HoldOf(t.panes[key]) == h
  }

  /** How much of what arrives an attach reads. */
  function Read(t: Table, rq: Request, st: Attaching, script: seq<Received>): (n: nat)
    ensures n <= |script|
    decreases |script|
  {
    if script == [] then 0
    else
      var step := AttachStep(t, rq, st, script[0]);
      if step.Finished? then 1 else 1 + Read(step.table, rq, step.collected, script[1..])
  }

  /** One pane after a message; only its own lease concerns it. */
  function Told(p: PtyPane, pane: u64, m: ServerMessage): PtyPane {
    if p.attachment.None? || p.lease.None? then p
    else if EndsHold(m, pane, p.lease.value) then
      if m.PaneExited? then Unbound(p).(exitStatus := Some(m.code)) else Unbound(p)
    else if m.PtyOutput? && m.pane == pane && Some(m.lease) == p.lease then Output(p, m.sequence, m.bytes)
    else p
  }

  lemma MessageTells(t: Table, m: ServerMessage, key: PtyKey)
    requires Inverse(t) && key in t.panes
    ensures key in HandleMessage(t, m).panes
    ensures HandleMessage(t, m).panes[key] == Told(t.panes[key], WireId(key), m)
  {
    var p := t.panes[key];
    if p.attachment.Some? {
      assert LeaseOf(t, WireId(key)) == p.lease;
    }
  }

  lemma ToldFollows(p: PtyPane, pane: u64, m: ServerMessage)
    requires Watermarked(p)
    ensures Watermarked(Told(p, pane, m)) && HoldOf(Told(p, pane, m)) == Follow(HoldOf(p), pane, m)
  {
  }

  lemma MessageFollows(t: Table, m: ServerMessage, key: PtyKey, h: Hold)
    requires Inverse(t) && StandsAs(t, key, h)
    ensures Inverse(HandleMessage(t, m)) && StandsAs(HandleMessage(t, m), key, Follow(h, WireId(key), m))
  {
    MessageKeepsInverse(t, m);
    MessageTells(t, m, key);
    ToldFollows(t.panes[key], WireId(key), m);
  }

  lemma StepFollows(t: Table, rq: Request, st: Attaching, r: Received, h: Hold)
    requires Inverse(t) && StandsAs(t, rq.key, h) && AttachStep(t, rq, st, r).More?
    ensures var u := AttachStep(t, rq, st, r).table;
            Inverse(u) && StandsAs(u, rq.key, FollowOne(h, WireId(rq.key), r))
  {
    if r.Got? {
      StepIgnoresReplies(t, rq, st, r);
      MessageFollows(t, r.message, rq.key, h);
      if IsReply(r.message, rq) { assert Follow(h, WireId(rq.key), r.message) == h; }
    } else {
      LossFollows(t, rq, r.resumption, h);
    }
  }

  lemma LossFollows(t: Table, rq: Request, resumption: Resumption, h: Hold)
    requires Inverse(t) && StandsAs(t, rq.key, h) && OnLost(t, rq, resumption).More?
    ensures var u := OnLost(t, rq, resumption).table; Inverse(u) && StandsAs(u, rq.key, AfterLoss(h))
  {
    var u := Resume(t, resumption).table;
    PutKeepsInverse(u, rq.key, Entry(Restarted(u, rq.key), rq.key));
  }

  /**
  Success, told by what was held: the screen is the output under the lease and
  then the replay, and the terminal runs unless the lease was ended. The lease
  committed is one of this connection either way.
  */
  predicate SucceedsAs(o: Outcome, key: PtyKey, h: Hold) {
    o.result == Attached ==>
      var p := Entry(o.table, key);
      && p.shown == h.shown + p.log && Watermarked(p) && GrantedHere(o.table, key)
      && (p.attachment.None? <==> h.Ended?)
      && (IsRunning(o.table, key) <==> !h.Ended?)
  }

  lemma LastStepSucceeds(t: Table, rq: Request, st: Attaching, r: Received, h: Hold)
    requires StandsAs(t, rq.key, h) && AttachStep(t, rq, st, r).Finished?
    ensures var step := AttachStep(t, rq, st, r);
            SucceedsAs(Outcome(step.table, step.result), rq.key, FollowOne(h, WireId(rq.key), r))
  {
  }

  /** Whatever arrives, in whatever order: how a successful attach ends is settled by the lease held as it began. */
  lemma {:induction false} AttachFollows(t: Table, rq: Request, st: Attaching, script: seq<Received>, h: Hold)
    requires Inverse(t) && StandsAs(t, rq.key, h)
    ensures var heard := script[..Read(t, rq, st, script)];
            SucceedsAs(AttachFrom(t, rq, st, script), rq.key, FollowAll(h, WireId(rq.key), heard))
    decreases |script|
  {
    if script != [] {
      var r, step, n := script[0], AttachStep(t, rq, st, script[0]), Read(t, rq, st, script);
      var next := FollowOne(h, WireId(rq.key), r);
      assert script[..n][0] == r && script[..n][1..] == script[1..][..n - 1];
      assert FollowAll(h, WireId(rq.key), script[..n]) == FollowAll(next, WireId(rq.key), script[1..][..n - 1]);
      if step.More? {
        StepFollows(t, rq, st, r, h);
        AttachFollows(step.table, rq, step.collected, script[1..], next);
      } else {
        LastStepSucceeds(t, rq, st, r, h);
      }
    }
  }

  /** The table in which the replies are awaited, once the request is written. */
  function Awaiting(t: Table, opening: Opening): Table {
    if opening.Reopened? then Resume(t, opening.resumption).table else t
  }

  /** What an attach reads, its first write included. */
  function Heard(t: Table, rq: Request, opening: Opening, script: seq<Received>): seq<Received> {
    script[..Read(Awaiting(t, opening), rq, STARTED, script)]
  }

  lemma PerformFollows(t: Table, rq: Request, opening: Opening, script: seq<Received>, h: Hold)
    requires Inverse(t) && StandsAs(t, rq.key, h)
    ensures SucceedsAs(PerformAttach(t, rq, opening, script), rq.key,
                       FollowAll(h, WireId(rq.key), Heard(t, rq, opening, script)))
  {
    var u := Awaiting(t, opening);
    if PerformAttach(t, rq, opening, script).result == Attached {
      assert u.panes == t.panes && u.index == t.index;
      AttachFollows(u, rq, STARTED, script, h);
    }
  }
}

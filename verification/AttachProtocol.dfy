/**
Attaching to a daemon session: the request, its acceptance, the replay and the
connection losses in between (`perform_attach` and its callers).
*/
module AttachProtocol {
  import opened Primitives
  import opened PaneTable

  // ---- one attach -----------------------------------------------------------

  /** How a synchronous reconnect inside a request ends. */
  datatype Resumption =
    | Reconnected(hello: Hello)               // greeted; if by the same daemon, the request was written again
    | Unsent(hello: Hello, uncertain: bool)   // greeted; if by the same daemon, the second write failed
    | NotResumed(uncertain: bool)             // no connection

  /** What the wait for the next message gives. */
  datatype Received = Got(message: ServerMessage) | Lost(resumption: Resumption) | TimedOut

  /** `Unidentified`: no durable identity to attach with; `AlreadyRunning`: nothing to start. */
  datatype AttachResult =
    Attached | Rejected(unknownSession: bool) | Failed(uncertain: bool) | Unidentified | AlreadyRunning

  /** What the loop has collected; `omitted` is also the replay's first sequence. */
  datatype Attaching = Attaching(lease: Option<u64>, next: Option<u64>, watermark: Option<u64>,
                                 bytes: seq<byte>, omitted: u64)

  const STARTED := Attaching(None, None, None, [], 0)

  datatype Progress = More(table: Table, collected: Attaching) | Finished(table: Table, result: AttachResult)

  /** The request an attach waits on: its ID, the key it is for, and the session asked for. */
  datatype Request = Request(id: u64, key: PtyKey)

  function OutOfOrder(t: Table): Progress {
    Finished(t, Failed(true))
  }

  function OnAccepted(t: Table, rq: Request, st: Attaching, session: u64, pane: u64, lease: u64): Progress {
    if session != WireId(rq.key) || pane != WireId(rq.key) then OutOfOrder(t)
    else if st.lease.Some? then OutOfOrder(t)
    else More(t, st.(lease := Some(lease)))
  }

  function OnReplayBegin(t: Table, rq: Request, st: Attaching, pane: u64, lease: u64,
                         first: u64, watermark: u64, omitted: u64): Progress {
    if pane != WireId(rq.key) || st.lease != Some(lease) || st.next.Some? then OutOfOrder(t)
    else if first > watermark || omitted != first then OutOfOrder(t)
    else More(t, st.(next := Some(first), watermark := Some(watermark), omitted := omitted))
  }

  function OnReplayChunk(t: Table, rq: Request, st: Attaching, pane: u64, lease: u64,
                         sequence: u64, bytes: seq<byte>): Progress {
    if st.next.None? then OutOfOrder(t)
    else if pane != WireId(rq.key) || st.lease != Some(lease) || sequence != st.next.value then OutOfOrder(t)
    else if sequence + |bytes| > U64_MAX then OutOfOrder(t)
    else if st.watermark.Some? && sequence + |bytes| > st.watermark.value then OutOfOrder(t)
    else More(t, st.(bytes := st.bytes + bytes, next := Some(sequence + |bytes|)))
  }

  /** The replay reaches the pane in one piece, with the lease and the watermark. */
  function Commit(t: Table, key: PtyKey, st: Attaching, lease: u64, watermark: u64): Table {
    var p := Entry(t, key);
    Put(t, key, p.(lease := Some(lease), expected := Some(watermark), grantedBy := t.daemon,
                   grantedOn := t.connection, first := st.omitted, log := st.bytes, shown := p.shown + st.bytes))
  }

  function OnReplayEnd(t: Table, rq: Request, st: Attaching, pane: u64, lease: u64, watermark: u64): Progress {
    if pane != WireId(rq.key) || st.lease != Some(lease) || st.watermark != Some(watermark)
       || st.next != Some(watermark)
    then OutOfOrder(t)
    else Finished(Commit(t, rq.key, st, lease, watermark), Attached)
  }

  function OnMessage(t: Table, rq: Request, st: Attaching, m: ServerMessage): Progress {
    match m
    case AttachAccepted(request, session, pane, lease) =>
      if request == rq.id then OnAccepted(t, rq, st, session, pane, lease) else Routed(t, st, m)
    case AttachRefused(request, unknown) =>
      if request == rq.id then Finished(t, Rejected(unknown)) else Routed(t, st, m)
    case ReplayBegin(request, pane, lease, first, watermark, omitted) =>
      if request == rq.id then OnReplayBegin(t, rq, st, pane, lease, first, watermark, omitted) else Routed(t, st, m)
    case ReplayChunk(request, pane, lease, sequence, bytes) =>
      if request == rq.id then OnReplayChunk(t, rq, st, pane, lease, sequence, bytes) else Routed(t, st, m)
    case ReplayEnd(request, pane, lease, watermark) =>
      if request == rq.id then OnReplayEnd(t, rq, st, pane, lease, watermark) else Routed(t, st, m)
    case PtyOutput(pane, lease, _, _) =>
      if pane == WireId(rq.key) && st.lease == Some(lease) then OutOfOrder(t) else Routed(t, st, m)
    case ConnectionWide(unknown) => Finished(t, Rejected(unknown))
    case _ => Routed(t, st, m)
  }

  function Routed(t: Table, st: Attaching, m: ServerMessage): Progress {
    More(HandleMessage(t, m), st)
  }

  /** The pane as it is after a resumed connection: an empty screen and no lease. */
  function Restarted(t: Table, key: PtyKey): Table {
    Put(t, key, Unleased(Entry(t, key)).(shown := [], exitStatus := None))
  }

  /** A table on its new connection, and why the request could not go on there. */
  datatype Resumed = Resumed(table: Table, failure: Option<AttachResult>)

  function Resume(t: Table, resumption: Resumption): Resumed {
    match resumption
    case Reconnected(hello) =>
      Resumed(Install(t, hello, ScopeOf(t)), if ResumedSame(t, hello, ScopeOf(t)) then None else Some(Failed(true)))
    case Unsent(hello, uncertain) =>
      Resumed(Install(t, hello, ScopeOf(t)),
              Some(Failed(if ResumedSame(t, hello, ScopeOf(t)) then uncertain else true)))
    case NotResumed(uncertain) => Resumed(t, Some(Failed(uncertain)))
  }

  function OnLost(t: Table, rq: Request, resumption: Resumption): Progress {
    var r := Resume(t, resumption);
    if r.failure.None? then More(Restarted(r.table, rq.key), STARTED) else Finished(r.table, r.failure.value)
  }

  function AttachStep(t: Table, rq: Request, st: Attaching, r: Received): Progress {
    match r
    case Got(m) => OnMessage(t, rq, st, m)
    case Lost(resumption) => OnLost(t, rq, resumption)
    case TimedOut => Finished(t, Failed(true))
  }

  datatype Outcome = Outcome(table: Table, result: AttachResult)

  /** The loop over what is received; when nothing more comes, it times out. */
  function AttachFrom(t: Table, rq: Request, st: Attaching, script: seq<Received>): Outcome
    decreases |script|
  {
    if script == [] then Outcome(t, Failed(true))
    else
      match AttachStep(t, rq, st, script[0])
      case More(u, collected) => AttachFrom(u, rq, collected, script[1..])
      case Finished(u, result) => Outcome(u, result)
  }

  /** The first write of the request. */
  datatype Opening = Written | WriteFailed(uncertain: bool) | Reopened(resumption: Resumption)

  function PerformAttach(t: Table, rq: Request, opening: Opening, script: seq<Received>): Outcome {
    if t.daemon.None? then Outcome(t, Failed(true))  // never connected: offline
    else
      match opening
      case Written => AttachFrom(t, rq, STARTED, script)
      case WriteFailed(uncertain) => Outcome(t, Failed(uncertain))
      case Reopened(resumption) =>
        var r := Resume(t, resumption);
        if r.failure.None? then AttachFrom(r.table, rq, STARTED, script) else Outcome(r.table, r.failure.value)
  }

  // ---- its callers ----------------------------------------------------------

  /** A definite refusal ends the binding; an uncertain failure keeps it for a later attempt. */
  function Settled(o: Outcome, key: PtyKey): Outcome {
    if o.result.Rejected? || o.result == Failed(false) then o.(table := ClearAttachment(o.table, WireId(key))) else o
  }

  function AttachExisting(t: Table, rq: Request, opening: Opening, script: seq<Received>): Outcome {
    if IsRunning(t, rq.key) then Outcome(t, Attached)
    else if Entry(t, rq.key).identity.None? then Outcome(t, Unidentified)
    else Settled(PerformAttach(BindPane(ResetParser(t, rq.key), rq.key, WireId(rq.key)), rq, opening, script), rq.key)
  }

  function HandleAll(t: Table, ms: seq<ServerMessage>): Table {
    if ms == [] then t else HandleMessage(HandleAll(t, ms[..|ms| - 1]), ms[|ms| - 1])
  }

  /** The attach tried first for a key still bound. */
  datatype Restore = Restore(id: u64, opening: Opening, script: seq<Received>)

  /**
  Creating a session and attaching to it: what is routed while a stop is waited
  out, what arrives before the answer, the answer, and then the attach.
  */
  datatype Launch = Launch(draining: seq<ServerMessage>, arrivals: seq<Received>, answer: AttachResult,
                           opening: Opening, script: seq<Received>)

  /** Waiting for the answer to a creation; a resumed connection writes the request again. */
  function CreateFrom(t: Table, arrivals: seq<Received>, answer: AttachResult): Outcome
    decreases |arrivals|
  {
    if arrivals == [] then Outcome(t, answer)
    else
      match arrivals[0]
      case Got(m) =>
        if m.ConnectionWide? then Outcome(t, Rejected(m.unknownSession))
        else CreateFrom(HandleMessage(t, m), arrivals[1..], answer)
      case Lost(resumption) =>
        var r := Resume(t, resumption);
        if r.failure.None? then CreateFrom(r.table, arrivals[1..], answer) else Outcome(r.table, r.failure.value)
      case TimedOut => Outcome(t, Failed(true))
  }

  /** The pane reset, then bound once a stop of the same session has been waited out. */
  function BoundFor(t: Table, key: PtyKey, draining: seq<ServerMessage>): Table {
    BindPane(HandleAll(ResetParser(t, key), draining), key, WireId(key))
  }

  function AttachCreated(created: Outcome, rq: Request, opening: Opening, script: seq<Received>): Outcome {
    if created.result != Attached then Settled(created, rq.key)
    else Settled(PerformAttach(created.table, rq, opening, script), rq.key)
  }

  /** Waiting out a stop, creating the session, then attaching to it. */
  function StartAttached(t: Table, rq: Request, launch: Launch): Outcome {
    if Entry(t, rq.key).identity.None? then Outcome(ResetParser(t, rq.key), Unidentified)
    else
      var bound := BoundFor(t, rq.key, launch.draining);
      AttachCreated(CreateFrom(bound, launch.arrivals, launch.answer), rq, launch.opening, launch.script)
  }

  /**
  Starting a terminal: refused when it runs. A key still bound is attached to
  what it is bound to, and only a missing session is created again.
  */
  function StartTerminal(t: Table, rq: Request, restore: Restore, launch: Launch): Outcome {
    if IsRunning(t, rq.key) then Outcome(t, AlreadyRunning)
    else if Entry(t, rq.key).attachment.None? then StartAttached(t, rq, launch)
    else
      var o := AttachExisting(t, Request(restore.id, rq.key), restore.opening, restore.script);
      if o.result == Rejected(true) then StartAttached(o.table, rq, launch) else o
  }

  /** A queued re-attachment; a session the daemon no longer has counts as an exit. */
  function Reattach(t: Table, rq: Request, opening: Opening, script: seq<Received>): Outcome {
    var reset := ResetParser(t, rq.key);
    var o := PerformAttach(reset, rq, opening, script);
    if Entry(reset, rq.key).identity.None? then Outcome(reset, Unidentified)
    else if o.result != Rejected(true) then o
    else
      var cleared := ClearAttachment(o.table, WireId(rq.key));
      o.(table := Put(cleared, rq.key, Entry(cleared, rq.key).(exitStatus := Some(1))))
  }

  // ---- what a failed attach leaves ------------------------------------------

  /** An attach from which every reply to the request is struck out. */
  function WithoutReplies(t: Table, rq: Request, script: seq<Received>): Table
    decreases |script|
  {
    if script == [] then t
    else WithoutReplies(WithoutReply(t, rq, script[0]), rq, script[1..])
  }

  function WithoutReply(t: Table, rq: Request, r: Received): Table {
    match r
    case Got(m) => if IsReply(m, rq) then t else HandleMessage(t, m)
    case Lost(resumption) =>
      var r := Resume(t, resumption);
      if r.failure.None? then Restarted(r.table, rq.key) else r.table
    case TimedOut => t
  }

  predicate IsReply(m: ServerMessage, rq: Request) {
    match m
    case AttachAccepted(request, _, _, _) => request == rq.id
    case AttachRefused(request, _) => request == rq.id
    case ReplayBegin(request, _, _, _, _, _) => request == rq.id
    case ReplayChunk(request, _, _, _, _) => request == rq.id
    case ReplayEnd(request, _, _, _) => request == rq.id
    case _ => false
  }

  /** Live output under the lease just accepted ends the attach; it is not taken. */
  predicate EndsTheAttach(st: Attaching, rq: Request, r: Received) {
    r.Got? && r.message.PtyOutput? && r.message.pane == WireId(rq.key) && st.lease == Some(r.message.lease)
  }

  lemma StepIgnoresReplies(t: Table, rq: Request, st: Attaching, r: Received)
    ensures var step := AttachStep(t, rq, st, r);
            step != Finished(step.table, Attached) ==>
              step.table == if EndsTheAttach(st, rq, r) then t else WithoutReply(t, rq, r)
  {
  }

  ghost predicate LeavesNoReply(t: Table, rq: Request, script: seq<Received>, left: Table) {
    exists n :: 0 <= n <= |script| && left == WithoutReplies(t, rq, script[..n])
  }

  /** A failed attach leaves the table as if no reply, and so no replay byte, had ever arrived. */
  lemma {:induction false} FailureCommitsNothing(t: Table, rq: Request, st: Attaching, script: seq<Received>)
    requires AttachFrom(t, rq, st, script).result != Attached
    ensures LeavesNoReply(t, rq, script, AttachFrom(t, rq, st, script).table)
    decreases |script|
  {
    if script == [] {
      assert WithoutReplies(t, rq, script[..0]) == t;
    } else {
      var step := AttachStep(t, rq, st, script[0]);
      StepIgnoresReplies(t, rq, st, script[0]);
      if step.Finished? && EndsTheAttach(st, rq, script[0]) {
        assert WithoutReplies(t, rq, script[..0]) == t;
      } else if step.Finished? {
        assert script[..1][0] == script[0] && script[..1][1..] == [];
        assert WithoutReplies(t, rq, script[..1]) == step.table;
      } else {
        FailureCommitsNothing(step.table, rq, step.collected, script[1..]);
        var n :| 0 <= n <= |script[1..]|
                 && AttachFrom(t, rq, st, script).table == WithoutReplies(step.table, rq, script[1..][..n]);
        assert script[..n + 1][0] == script[0] && script[..n + 1][1..] == script[1..][..n];
      }
    }
  }

  // ---- invariants over an attach --------------------------------------------

  predicate HonestScript(script: seq<Received>, d: Streams) {
    forall r :: r in script && r.Got? ==> Honest(r.message, d)
  }

  /** Replay bytes collected so far stand in the pane's output where the replay says. */
  predicate HonestReplay(st: Attaching, rq: Request, d: Streams) {
    && (st.next.Some? ==> st.lease.Some? && st.omitted + |st.bytes| == st.next.value)
    && (st.next.Some? ==> At(d(WireId(rq.key), st.lease.value), st.omitted, st.bytes))
    && (st.next.None? ==> st.bytes == [])
  }

  /** What every table of the runtime satisfies. */
  ghost predicate Sound(t: Table, d: Streams) {
    && Inverse(t) && Contiguous(t, d) && HeldHere(t)
    && forall key :: key in t.panes ==> Durable(key)
  }

  lemma PutKeepsSound(t: Table, key: PtyKey, p: PtyPane, d: Streams)
    requires Sound(t, d) && Durable(key)
    requires p.attachment == Entry(t, key).attachment && ContiguousPane(p, WireId(key), d)
    requires p.lease.Some? ==> t.daemon.Some? && p.grantedBy == t.daemon && p.grantedOn <= t.connection
    ensures Sound(Put(t, key, p), d)
  {
    PutKeepsInverse(t, key, p);
    PutKeepsHeld(t, key, p);
    PutKeepsContiguous(t, key, p, d);
  }

  lemma PutKeepsHeld(t: Table, key: PtyKey, p: PtyPane)
    requires HeldHere(t)
    requires p.lease.Some? ==> t.daemon.Some? && p.grantedBy == t.daemon && p.grantedOn <= t.connection
    ensures HeldHere(Put(t, key, p))
  {
  }

  lemma PutKeepsContiguous(t: Table, key: PtyKey, p: PtyPane, d: Streams)
    requires Contiguous(t, d) && ContiguousPane(p, WireId(key), d)
    ensures Contiguous(Put(t, key, p), d)
  {
  }

  lemma MessageKeepsSound(t: Table, m: ServerMessage, d: Streams)
    requires Sound(t, d) && Honest(m, d)
    ensures Sound(HandleMessage(t, m), d)
  {
    MessageKeepsInverse(t, m);
    MessageKeepsContiguous(t, m, d);
    MessageKeepsHeld(t, m);
    assert forall key :: key in HandleMessage(t, m).panes ==> key in HandleMessage(t, m).panes.Keys;
    assert forall key :: key in t.panes.Keys ==> key in t.panes;
  }

  lemma ClearKeepsSound(t: Table, pane: u64, d: Streams)
    requires Sound(t, d)
    ensures Sound(ClearAttachment(t, pane), d)
  {
    ClearKeepsInverse(t, pane);
  }

  lemma InstallKeepsSound(t: Table, hello: Hello, d: Streams)
    requires Sound(t, d)
    ensures Sound(Install(t, hello, ScopeOf(t)), d)
  {
    InstallKeepsInverse(t, hello, ScopeOf(t));
    InstallKeepsHeld(t, hello);
  }

  lemma BindKeepsSound(t: Table, key: PtyKey, d: Streams)
    requires Sound(t, d) && Durable(key)
    ensures Sound(BindPane(t, key, WireId(key)), d)
  {
    BindKeepsInverse(t, key);
    BindKeepsHeld(t, key);
    PutKeepsContiguous(t, key, Entry(BindPane(t, key, WireId(key)), key), d);
  }

  lemma BindKeepsHeld(t: Table, key: PtyKey)
    requires HeldHere(t)
    ensures HeldHere(BindPane(t, key, WireId(key)))
  {
    PutKeepsHeld(t, key, Entry(BindPane(t, key, WireId(key)), key));
  }

  lemma ResetKeepsSound(t: Table, key: PtyKey, d: Streams)
    requires Sound(t, d) && Durable(key)
    ensures Sound(ResetParser(t, key), d)
  {
    PutKeepsSound(t, key, Entry(t, key).(shown := [], exitStatus := None), d);
  }

  lemma ChunkKeepsHonest(t: Table, rq: Request, st: Attaching, pane: u64, lease: u64,
                         sequence: u64, bytes: seq<byte>, d: Streams)
    requires HonestReplay(st, rq, d) && At(d(pane, lease), sequence, bytes)
    ensures var step := OnReplayChunk(t, rq, st, pane, lease, sequence, bytes);
            step.More? ==> HonestReplay(step.collected, rq, d)
  {
    if OnReplayChunk(t, rq, st, pane, lease, sequence, bytes).More? {
      AtAppend(d(pane, lease), st.omitted, st.bytes, bytes);
    }
  }

  lemma MessageStepKeepsSound(t: Table, rq: Request, st: Attaching, m: ServerMessage, d: Streams)
    requires Sound(t, d) && t.daemon.Some? && Durable(rq.key) && HonestReplay(st, rq, d) && Honest(m, d)
    ensures var step := OnMessage(t, rq, st, m);
            Sound(step.table, d) && step.table.daemon == t.daemon
            && (step.More? ==> HonestReplay(step.collected, rq, d))
  {
    MessageKeepsSound(t, m, d);
    MessageKeepsHeld(t, m);
    if m.ReplayChunk? && m.request == rq.id {
      ChunkKeepsHonest(t, rq, st, m.pane, m.lease, m.sequence, m.bytes, d);
    } else if m.ReplayEnd? && m.request == rq.id && OnMessage(t, rq, st, m).result == Attached {
      var p := Entry(t, rq.key);
      PutKeepsSound(t, rq.key, Entry(Commit(t, rq.key, st, m.lease, m.watermark), rq.key), d);
    }
  }

  lemma ResumeKeepsSound(t: Table, resumption: Resumption, d: Streams)
    requires Sound(t, d)
    ensures Sound(Resume(t, resumption).table, d) && (t.daemon.Some? ==> Resume(t, resumption).table.daemon.Some?)
  {
    if !resumption.NotResumed? { InstallKeepsSound(t, resumption.hello, d); }
  }

  lemma LostKeepsSound(t: Table, rq: Request, resumption: Resumption, d: Streams)
    requires Sound(t, d) && t.daemon.Some? && Durable(rq.key)
    ensures Sound(OnLost(t, rq, resumption).table, d) && OnLost(t, rq, resumption).table.daemon.Some?
  {
    var u := Resume(t, resumption).table;
    ResumeKeepsSound(t, resumption, d);
    PutKeepsSound(u, rq.key, Entry(Restarted(u, rq.key), rq.key), d);
  }

  lemma {:induction false} AttachFromKeepsSound(t: Table, rq: Request, st: Attaching, script: seq<Received>, d: Streams)
    requires Sound(t, d) && t.daemon.Some? && Durable(rq.key) && HonestReplay(st, rq, d) && HonestScript(script, d)
    ensures Sound(AttachFrom(t, rq, st, script).table, d)
    decreases |script|
  {
    if script != [] {
      assert script[0] in script;
      match script[0] {
        case Got(m) => MessageStepKeepsSound(t, rq, st, m, d);
        case Lost(resumption) => LostKeepsSound(t, rq, resumption, d);
        case TimedOut =>
      }
      var step := AttachStep(t, rq, st, script[0]);
      if step.More? {
        AttachFromKeepsSound(step.table, rq, step.collected, script[1..], d);
      }
    }
  }

  lemma PerformKeepsSound(t: Table, rq: Request, opening: Opening, script: seq<Received>, d: Streams)
    requires Sound(t, d) && Durable(rq.key) && HonestScript(script, d)
    ensures Sound(PerformAttach(t, rq, opening, script).table, d)
  {
    if t.daemon.Some? {
      AttachFromKeepsSound(t, rq, STARTED, script, d);
      if opening.Reopened? {
        var u := Resume(t, opening.resumption).table;
        ResumeKeepsSound(t, opening.resumption, d);
        AttachFromKeepsSound(u, rq, STARTED, script, d);
      }
    }
  }

  lemma AttachMore(t: Table, rq: Request, st: Attaching, r: Received, rest: seq<Received>)
    requires AttachStep(t, rq, st, r).More?
    ensures var step := AttachStep(t, rq, st, r);
            AttachFrom(t, rq, st, [r] + rest) == AttachFrom(step.table, rq, step.collected, rest)
  {
    assert ([r] + rest)[1..] == rest;
  }
}

/**
The runtime object that owns the pane table, its methods, and what holds after
any run of them (`PtyRuntime`).
*/
module PtyRuntimeObject {
  import opened Primitives
  import opened PaneTable
  import opened AttachProtocol
  import opened OutputDelivery
  import opened HeldLease
  import opened Reattachment
  import opened AttachFaults

  // ---- runs -----------------------------------------------------------------

  /** Everything that changes the table, with what the daemon sends during it. */
  datatype Event =
    | Received(message: ServerMessage)
    | AttachedExisting(rq: Request, opening: Opening, script: seq<Received>)
    | Started(rq: Request, restore: Restore, launch: Launch)
    | Reattached(rq: Request, opening: Opening, script: seq<Received>)
    | Stopped(key: PtyKey, sent: bool)
    | Removed(key: PtyKey)
    | Connected(hello: Hello)
    | Registered(key: PtyKey, identity: u64)
    | Noted(key: PtyKey, bytes: seq<byte>)

  /** A stop ends the attachment as soon as it is sent, without waiting for the answer. */
  function Stop(t: Table, key: PtyKey, sent: bool): Table {
    var a := Entry(t, key).attachment;
    if a.None? || LeaseOf(t, a.value).None? || !sent then t
    else
      var cleared := ClearAttachment(t, a.value);
      Put(cleared, key, Entry(cleared, key).(exitStatus := None))
  }

  function Apply(t: Table, e: Event): Table {
    match e
    case Received(m) => HandleMessage(t, m)
    case AttachedExisting(rq, opening, script) => AttachExisting(t, rq, opening, script).table
    case Started(rq, restore, launch) => StartTerminal(t, rq, restore, launch).table
    case Reattached(rq, opening, script) =>
      // A queue entry may be out of date; only a key still bound is attached again.
      if Entry(t, rq.key).attachment.None? then t else Reattach(t, rq, opening, script).table
    case Stopped(key, sent) => Stop(t, key, sent)
    case Removed(key) => RemoveTerminal(t, key)
    case Connected(hello) => Install(t, hello, ScopeOf(t))
    case Registered(key, identity) => Register(t, key, identity)
    case Noted(key, bytes) => Show(t, key, bytes)
  }

  function Run(t: Table, es: seq<Event>): Table {
    if es == [] then t else Apply(Run(t, es[..|es| - 1]), es[|es| - 1])
  }

  predicate HonestLaunch(launch: Launch, d: Streams) {
    && (forall m :: m in launch.draining ==> Honest(m, d))
    && HonestScript(launch.arrivals, d) && HonestScript(launch.script, d)
  }

  /** The event concerns keys the model handed out, and the daemon speaks the truth in it. */
  predicate Admissible(e: Event, d: Streams) {
    match e
    case Received(m) => Honest(m, d)
    case AttachedExisting(rq, _, script) => Durable(rq.key) && HonestScript(script, d)
    case Started(rq, restore, launch) =>
      && Durable(rq.key) && HonestScript(restore.script, d) && HonestLaunch(launch, d)
    case Reattached(rq, _, script) => Durable(rq.key) && HonestScript(script, d)
    case Stopped(key, _) => Durable(key)
    case Removed(key) => true
    case Connected(_) => true
    case Registered(key, _) => Durable(key)
    case Noted(key, _) => Durable(key)
  }

  lemma {:induction false} HandleAllKeepsSound(t: Table, ms: seq<ServerMessage>, d: Streams)
    requires Sound(t, d) && forall m :: m in ms ==> Honest(m, d)
    ensures Sound(HandleAll(t, ms), d)
    decreases |ms|
  {
    if ms != [] {
      HandleAllKeepsSound(t, ms[..|ms| - 1], d);
      MessageKeepsSound(HandleAll(t, ms[..|ms| - 1]), ms[|ms| - 1], d);
    }
  }

  lemma SettledKeepsSound(o: Outcome, key: PtyKey, d: Streams)
    requires Sound(o.table, d)
    ensures Sound(Settled(o, key).table, d)
  {
    ClearKeepsSound(o.table, WireId(key), d);
  }

  lemma AttachExistingKeepsSound(t: Table, rq: Request, opening: Opening, script: seq<Received>, d: Streams)
    requires Sound(t, d) && Durable(rq.key) && HonestScript(script, d)
    ensures Sound(AttachExisting(t, rq, opening, script).table, d)
  {
    var bound := BindPane(ResetParser(t, rq.key), rq.key, WireId(rq.key));
    ResetKeepsSound(t, rq.key, d);
    BindKeepsSound(ResetParser(t, rq.key), rq.key, d);
    PerformKeepsSound(bound, rq, opening, script, d);
    SettledKeepsSound(PerformAttach(bound, rq, opening, script), rq.key, d);
  }

  lemma {:induction false} CreateKeepsSound(t: Table, arrivals: seq<Received>, answer: AttachResult, d: Streams)
    requires Sound(t, d) && HonestScript(arrivals, d)
    ensures Sound(CreateFrom(t, arrivals, answer).table, d)
    decreases |arrivals|
  {
    if arrivals != [] {
      assert arrivals[0] in arrivals;
      match arrivals[0] {
        case Got(m) =>
          MessageKeepsSound(t, m, d);
          if !m.ConnectionWide? { CreateKeepsSound(HandleMessage(t, m), arrivals[1..], answer, d); }
        case Lost(resumption) =>
          var r := Resume(t, resumption);
          ResumeKeepsSound(t, resumption, d);
          if r.failure.None? { CreateKeepsSound(r.table, arrivals[1..], answer, d); }
        case TimedOut =>
      }
    }
  }

  lemma BoundKeepsSound(t: Table, key: PtyKey, draining: seq<ServerMessage>, d: Streams)
    requires Sound(t, d) && Durable(key) && forall m :: m in draining ==> Honest(m, d)
    ensures Sound(BoundFor(t, key, draining), d)
  {
    ResetKeepsSound(t, key, d);
    HandleAllKeepsSound(ResetParser(t, key), draining, d);
    BindKeepsSound(HandleAll(ResetParser(t, key), draining), key, d);
  }

  lemma AttachCreatedKeepsSound(created: Outcome, rq: Request, opening: Opening, script: seq<Received>, d: Streams)
    requires Sound(created.table, d) && Durable(rq.key) && HonestScript(script, d)
    ensures Sound(AttachCreated(created, rq, opening, script).table, d)
  {
    if created.result != Attached {
      SettledKeepsSound(created, rq.key, d);
    } else {
      PerformKeepsSound(created.table, rq, opening, script, d);
      SettledKeepsSound(PerformAttach(created.table, rq, opening, script), rq.key, d);
    }
  }

  lemma LaunchKeepsSound(t: Table, rq: Request, launch: Launch, d: Streams)
    requires Sound(t, d) && Durable(rq.key) && HonestLaunch(launch, d)
    ensures Sound(StartAttached(t, rq, launch).table, d)
  {
    var bound := BoundFor(t, rq.key, launch.draining);
    ResetKeepsSound(t, rq.key, d);
    BoundKeepsSound(t, rq.key, launch.draining, d);
    CreateKeepsSound(bound, launch.arrivals, launch.answer, d);
    AttachCreatedKeepsSound(CreateFrom(bound, launch.arrivals, launch.answer), rq, launch.opening, launch.script, d);
  }

  lemma StartKeepsSound(t: Table, rq: Request, restore: Restore, launch: Launch, d: Streams)
    requires Sound(t, d) && Admissible(Started(rq, restore, launch), d)
    ensures Sound(StartTerminal(t, rq, restore, launch).table, d)
  {
    var first := Request(restore.id, rq.key);
    AttachExistingKeepsSound(t, first, restore.opening, restore.script, d);
    LaunchKeepsSound(t, rq, launch, d);
    LaunchKeepsSound(AttachExisting(t, first, restore.opening, restore.script).table, rq, launch, d);
  }

  lemma ReattachKeepsSound(t: Table, rq: Request, opening: Opening, script: seq<Received>, d: Streams)
    requires Sound(t, d) && Durable(rq.key) && HonestScript(script, d)
    ensures Sound(Reattach(t, rq, opening, script).table, d)
  {
    ResetKeepsSound(t, rq.key, d);
    var o := PerformAttach(ResetParser(t, rq.key), rq, opening, script);
    PerformKeepsSound(ResetParser(t, rq.key), rq, opening, script, d);
    var cleared := ClearAttachment(o.table, WireId(rq.key));
    ClearKeepsSound(o.table, WireId(rq.key), d);
    PutKeepsSound(cleared, rq.key, Entry(cleared, rq.key).(exitStatus := Some(1)), d);
  }

  lemma StopKeepsSound(t: Table, key: PtyKey, sent: bool, d: Streams)
    requires Sound(t, d) && Durable(key)
    ensures Sound(Stop(t, key, sent), d)
  {
    var a := Entry(t, key).attachment;
    if a.Some? {
      var cleared := ClearAttachment(t, a.value);
      ClearKeepsSound(t, a.value, d);
      PutKeepsSound(cleared, key, Entry(cleared, key).(exitStatus := None), d);
    }
  }

  lemma RemoveKeepsSound(t: Table, key: PtyKey, d: Streams)
    requires Sound(t, d)
    ensures Sound(RemoveTerminal(t, key), d)
  {
    RemoveKeepsInverse(t, key);
  }

  lemma ApplyKeepsSound(t: Table, e: Event, d: Streams)
    requires Sound(t, d) && Admissible(e, d)
    ensures Sound(Apply(t, e), d)
  {
    match e {
      case Received(m) => MessageKeepsSound(t, m, d);
      case AttachedExisting(rq, opening, script) => AttachExistingKeepsSound(t, rq, opening, script, d);
      case Started(rq, restore, launch) => StartKeepsSound(t, rq, restore, launch, d);
      case Reattached(rq, opening, script) => ReattachKeepsSound(t, rq, opening, script, d);
      case Stopped(key, sent) => StopKeepsSound(t, key, sent, d);
      case Removed(key) => RemoveKeepsSound(t, key, d);
      case Connected(hello) => InstallKeepsSound(t, hello, d);
      case Registered(key, identity) => PutKeepsSound(t, key, Entry(t, key).(identity := Some(identity)), d);
      case Noted(key, bytes) => PutKeepsSound(t, key, Entry(Show(t, key, bytes), key), d);
    }
  }

  const NOTHING := Table(map[], map[], None, 0)

  /**
  Every run from an empty runtime: the index and the bindings stay inverse, and
  each leased pane's log is the daemon's output from `first` up to the watermark.
  */
  lemma {:induction false} RunKeepsSound(es: seq<Event>, d: Streams)
    requires forall e :: e in es ==> Admissible(e, d)
    ensures Sound(Run(NOTHING, es), d)
    decreases |es|
  {
    if es != [] {
      RunKeepsSound(es[..|es| - 1], d);
      ApplyKeepsSound(Run(NOTHING, es[..|es| - 1]), es[|es| - 1], d);
    }
  }

  /** A running terminal's log, spelt out. */
  lemma RunningLogIsTheOutput(es: seq<Event>, d: Streams, key: PtyKey)
    requires forall e :: e in es ==> Admissible(e, d)
    requires IsRunning(Run(NOTHING, es), key)
    ensures var p := Entry(Run(NOTHING, es), key);
            && p.first + |p.log| == p.expected.value
            && (p.log != [] ==> p.expected.value <= |d(WireId(key), p.lease.value)|
                                && p.log == d(WireId(key), p.lease.value)[p.first..p.expected.value])
    ensures KeyForPaneId(WireId(key)) == key
            && LeaseOf(Run(NOTHING, es), WireId(key)) == Entry(Run(NOTHING, es), key).lease
  {
    RunKeepsSound(es, d);
    WireIdRoundTrip(key, WireId(key));
  }

  /** In every run, each lease held was granted by the daemon last connected to, under the scope it has. */
  lemma HeldLeasesAreCurrent(es: seq<Event>, d: Streams, key: PtyKey)
    requires forall e :: e in es ==> Admissible(e, d)
    ensures var t := Run(NOTHING, es);
            Entry(t, key).lease.Some? ==> t.daemon.Some? && Entry(t, key).grantedBy == t.daemon
  {
    RunKeepsSound(es, d);
  }

  /** So a connection keeps a lease exactly when its greeting names the grantor and says the scope is resumed. */
  lemma LeaseOutlivesConnectionIff(es: seq<Event>, d: Streams, hello: Hello, key: PtyKey)
    requires forall e :: e in es ==> Admissible(e, d)
    requires Entry(Run(NOTHING, es), key).lease.Some?
    ensures var p := Entry(Run(NOTHING, es), key);
            Entry(Apply(Run(NOTHING, es), Connected(hello)), key).lease == p.lease
            <==> hello.resumed && p.grantedBy == Some(hello.daemon)
  {
    RunKeepsSound(es, d);
  }

  // ---- identities -----------------------------------------------------------

  predicate KeepsIdentity(t: Table, u: Table, key: PtyKey) {
    Entry(t, key).identity.Some? ==> Entry(u, key).identity == Entry(t, key).identity
  }

  lemma {:induction false} HandleAllKeepsIdentity(t: Table, ms: seq<ServerMessage>, key: PtyKey)
    ensures KeepsIdentity(t, HandleAll(t, ms), key)
    decreases |ms|
  {
    if ms != [] { HandleAllKeepsIdentity(t, ms[..|ms| - 1], key); }
  }

  lemma {:induction false} AttachFromKeepsIdentity(t: Table, rq: Request, st: Attaching, script: seq<Received>,
                                                   key: PtyKey)
    ensures KeepsIdentity(t, AttachFrom(t, rq, st, script).table, key)
    decreases |script|
  {
    if script != [] {
      var step := AttachStep(t, rq, st, script[0]);
      StepKeepsIdentity(t, rq, st, script[0], key);
      if step.More? { AttachFromKeepsIdentity(step.table, rq, step.collected, script[1..], key); }
    }
  }

  lemma StepKeepsIdentity(t: Table, rq: Request, st: Attaching, r: Received, key: PtyKey)
    ensures KeepsIdentity(t, AttachStep(t, rq, st, r).table, key)
  {
  }

  lemma PerformKeepsIdentity(t: Table, rq: Request, opening: Opening, script: seq<Received>, key: PtyKey)
    ensures KeepsIdentity(t, PerformAttach(t, rq, opening, script).table, key)
  {
    AttachFromKeepsIdentity(Awaiting(t, opening), rq, STARTED, script, key);
  }

  lemma AttachCreatedKeepsIdentity(created: Outcome, rq: Request, opening: Opening, script: seq<Received>, key: PtyKey)
    ensures KeepsIdentity(created.table, AttachCreated(created, rq, opening, script).table, key)
  {
    PerformKeepsIdentity(created.table, rq, opening, script, key);
  }

  lemma {:induction false} CreateKeepsIdentity(t: Table, arrivals: seq<Received>, answer: AttachResult, key: PtyKey)
    ensures KeepsIdentity(t, CreateFrom(t, arrivals, answer).table, key)
    decreases |arrivals|
  {
    if arrivals != [] {
      match arrivals[0] {
        case Got(m) => CreateKeepsIdentity(HandleMessage(t, m), arrivals[1..], answer, key);
        case Lost(resumption) => CreateKeepsIdentity(Resume(t, resumption).table, arrivals[1..], answer, key);
        case TimedOut =>
      }
    }
  }

  lemma LaunchKeepsIdentity(t: Table, rq: Request, launch: Launch, key: PtyKey)
    ensures KeepsIdentity(t, StartAttached(t, rq, launch).table, key)
  {
    var bound := BoundFor(t, rq.key, launch.draining);
    var created := CreateFrom(bound, launch.arrivals, launch.answer);
    HandleAllKeepsIdentity(ResetParser(t, rq.key), launch.draining, key);
    CreateKeepsIdentity(bound, launch.arrivals, launch.answer, key);
    AttachCreatedKeepsIdentity(created, rq, launch.opening, launch.script, key);
  }

  lemma ExistingKeepsIdentity(t: Table, rq: Request, opening: Opening, script: seq<Received>, key: PtyKey)
    ensures KeepsIdentity(t, AttachExisting(t, rq, opening, script).table, key)
  {
    PerformKeepsIdentity(BoundAgain(t, rq.key), rq, opening, script, key);
  }

  lemma StartKeepsIdentity(t: Table, rq: Request, restore: Restore, launch: Launch, key: PtyKey)
    ensures KeepsIdentity(t, StartTerminal(t, rq, restore, launch).table, key)
  {
    var first := Request(restore.id, rq.key);
    ExistingKeepsIdentity(t, first, restore.opening, restore.script, key);
    LaunchKeepsIdentity(t, rq, launch, key);
    LaunchKeepsIdentity(AttachExisting(t, first, restore.opening, restore.script).table, rq, launch, key);
  }

  /** Once registered, a key's identity stays the same whatever happens, until the terminal is removed. */
  lemma IdentityIsKept(t: Table, e: Event, key: PtyKey)
    requires e != Removed(key)
    ensures KeepsIdentity(t, Apply(t, e), key)
  {
    if e.AttachedExisting? || e.Started? || e.Reattached? {
      AttachKeepsIdentity(t, e, key);
    }
  }

  lemma AttachKeepsIdentity(t: Table, e: Event, key: PtyKey)
    requires e.AttachedExisting? || e.Started? || e.Reattached?
    ensures KeepsIdentity(t, Apply(t, e), key)
  {
    match e {
      case AttachedExisting(rq, opening, script) => ExistingKeepsIdentity(t, rq, opening, script, key);
      case Started(rq, restore, launch) => StartKeepsIdentity(t, rq, restore, launch, key);
      case Reattached(rq, opening, script) => PerformKeepsIdentity(ResetParser(t, rq.key), rq, opening, script, key);
    }
  }

  // ---- re-attachments in a run ----------------------------------------------

  /** The clean re-attachment condition in every reachable state. */
  lemma ReachableReattachIsCleanIff(es: seq<Event>, d: Streams, rq: Request)
    requires forall e :: e in es ==> Admissible(e, d)
    requires Entry(Run(NOTHING, es), rq.key).attachment.Some? && Entry(Run(NOTHING, es), rq.key).identity.Some?
    ensures ReattachAlwaysClean(Run(NOTHING, es), rq) <==> !CanBeRejected(Entry(Run(NOTHING, es), rq.key).lease)
  {
    RunKeepsSound(es, d);
    ReattachIsCleanIff(Run(NOTHING, es), rq);
  }

  /** And that for attaching to an existing session: what it shows, and whether it runs. */
  lemma ReachableAttachIsCleanIff(es: seq<Event>, d: Streams, rq: Request)
    requires Durable(rq.key) && forall e :: e in es ==> Admissible(e, d)
    requires !IsRunning(Run(NOTHING, es), rq.key) && Entry(Run(NOTHING, es), rq.key).identity.Some?
    ensures var t := Run(NOTHING, es);
            && (AttachExistingAlwaysClean(t, rq) <==> !CanBeRejected(Entry(t, rq.key).lease))
            && (AttachExistingAlwaysReplayed(t, rq) <==> !CanShowOutput(t, rq.key))
  {
    RunKeepsSound(es, d);
    AttachExistingIsCleanIff(Run(NOTHING, es), rq);
    AttachExistingShowsTheReplayIff(Run(NOTHING, es), rq);
  }

  lemma {:induction false} ChunksAreHonest(rq: Request, lease: u64, from: u64, chunks: seq<seq<byte>>, d: Streams)
    requires from + |Concat(chunks)| <= U64_MAX && At(d(WireId(rq.key), lease), from, Concat(chunks))
    ensures HonestScript(ReplayChunks(rq, lease, from, chunks), d)
    decreases |chunks|
  {
    if chunks != [] {
      AtSplit(d(WireId(rq.key), lease), from, chunks[0], Concat(chunks[1..]));
      ChunksAreHonest(rq, lease, from + |chunks[0]|, chunks[1..], d);
    }
  }

  lemma AtSplit(stream: seq<byte>, from: nat, a: seq<byte>, b: seq<byte>)
    requires At(stream, from, a + b)
    ensures At(stream, from, a) && At(stream, from + |a|, b)
  {
    if a + b != [] {
      assert (a + b)[..|a|] == a && (a + b)[|a|..] == b;
      assert stream[from..from + |a + b|][..|a|] == stream[from..from + |a|];
      assert stream[from..from + |a + b|][|a|..] == stream[from + |a|..from + |a| + |b|];
    }
  }

  lemma ReplayIsHonest(rq: Request, lease: u64, first: u64, chunks: seq<seq<byte>>, d: Streams)
    requires first + |Concat(chunks)| <= U64_MAX && At(d(WireId(rq.key), lease), first, Concat(chunks))
    ensures HonestScript(WholeReplay(rq, lease, first, chunks), d)
  {
    ChunksAreHonest(rq, lease, first, chunks, d);
  }

  /** Connecting, registering and attaching with the replay of `chunks`. */
  function LeasedRun(hello: Hello, rq: Request, identity: u64, lease: u64, first: u64,
                     chunks: seq<seq<byte>>): seq<Event>
    requires first + |Concat(chunks)| <= U64_MAX
  {
    [Connected(hello), Registered(rq.key, identity),
     AttachedExisting(rq, Written, WholeReplay(rq, lease, first, chunks))]
  }

  lemma LeasedRunIsAdmissible(hello: Hello, rq: Request, identity: u64, lease: u64, first: u64,
                              chunks: seq<seq<byte>>, d: Streams)
    requires Durable(rq.key)
    requires first + |Concat(chunks)| <= U64_MAX && At(d(WireId(rq.key), lease), first, Concat(chunks))
    ensures forall e :: e in LeasedRun(hello, rq, identity, lease, first, chunks) ==> Admissible(e, d)
  {
    ReplayIsHonest(rq, lease, first, chunks, d);
  }

  /** Connected, and the key registered. */
  function Identified(hello: Hello, key: PtyKey, identity: u64): (t: Table)
    ensures Entry(t, key) == EMPTY.(identity := Some(identity)) && t.daemon == Some(hello.daemon)
  {
    Register(Install(NOTHING, hello, None), key, identity)
  }

  lemma LeasedRunAttaches(hello: Hello, rq: Request, identity: u64, lease: u64, first: u64, chunks: seq<seq<byte>>)
    requires first + |Concat(chunks)| <= U64_MAX
    ensures Run(NOTHING, LeasedRun(hello, rq, identity, lease, first, chunks))
            == AttachExisting(Identified(hello, rq.key, identity), rq, Written,
                              WholeReplay(rq, lease, first, chunks)).table
  {
    var script := WholeReplay(rq, lease, first, chunks);
    RunOfThree(Connected(hello), Registered(rq.key, identity), AttachedExisting(rq, Written, script));
  }

  /** Any durable key can be brought, by an honest daemon, to any lease and any log. */
  lemma LeasedPaneIsReachable(hello: Hello, rq: Request, identity: u64, lease: u64, first: u64,
                              chunks: seq<seq<byte>>, d: Streams)
    requires Durable(rq.key)
    requires first + |Concat(chunks)| <= U64_MAX && At(d(WireId(rq.key), lease), first, Concat(chunks))
    ensures var es := LeasedRun(hello, rq, identity, lease, first, chunks);
            var t := Run(NOTHING, es);
            && (forall e :: e in es ==> Admissible(e, d))
            && IsRunning(t, rq.key) && Entry(t, rq.key).identity == Some(identity) && t.daemon == Some(hello.daemon)
            && Entry(t, rq.key).lease == Some(lease) && Entry(t, rq.key).log == Concat(chunks)
  {
    LeasedRunIsAdmissible(hello, rq, identity, lease, first, chunks, d);
    LeasedRunAttaches(hello, rq, identity, lease, first, chunks);
    AttachingRuns(Identified(hello, rq.key, identity), rq, lease, first, chunks);
  }

  /** Attaching an identified key that is not running, with a whole replay. */
  lemma AttachingRuns(t: Table, rq: Request, lease: u64, first: u64, chunks: seq<seq<byte>>)
    requires first + |Concat(chunks)| <= U64_MAX
    requires !IsRunning(t, rq.key) && Entry(t, rq.key).identity.Some? && t.daemon.Some?
    ensures var o := AttachExisting(t, rq, Written, WholeReplay(rq, lease, first, chunks));
            && o.result == Attached && IsRunning(o.table, rq.key)
            && Entry(o.table, rq.key).identity == Entry(t, rq.key).identity && o.table.daemon == t.daemon
            && Entry(o.table, rq.key).lease == Some(lease) && Entry(o.table, rq.key).log == Concat(chunks)
  {
    ReplayIsCommittedWhole(BindPane(ResetParser(t, rq.key), rq.key, WireId(rq.key)), rq, lease, first, chunks);
  }

  lemma RunOfThree(a: Event, b: Event, c: Event)
    ensures Run(NOTHING, [a, b, c]) == Apply(Apply(Apply(NOTHING, a), b), c)
  {
    var es := [a, b, c];
    assert es[..2] == [a, b] && [a, b][..1] == [a] && [a][..0] == [];
    assert Run(NOTHING, [a]) == Apply(NOTHING, a);
    assert Run(NOTHING, [a, b]) == Apply(Run(NOTHING, [a]), b);
  }

  /** So there are runs after which a re-attachment is not always clean: one for every lease but the last. */
  lemma UncleanReattachIsReachable(hello: Hello, rq: Request, identity: u64, lease: u64, first: u64,
                                   chunks: seq<seq<byte>>, d: Streams)
    requires Durable(rq.key) && lease < U64_MAX
    requires first + |Concat(chunks)| <= U64_MAX && At(d(WireId(rq.key), lease), first, Concat(chunks))
    ensures var es := LeasedRun(hello, rq, identity, lease, first, chunks);
            && (forall e :: e in es ==> Admissible(e, d))
            && Entry(Run(NOTHING, es), rq.key).attachment.Some?
            && !ReattachAlwaysClean(Run(NOTHING, es), rq)
  {
    LeasedPaneIsReachable(hello, rq, identity, lease, first, chunks, d);
    ReachableReattachIsCleanIff(LeasedRun(hello, rq, identity, lease, first, chunks), d, rq);
  }

  // ---- the fault in a run ---------------------------------------------------

  /** Attached, the connection lost and resumed, and the held lease rejected while the terminal is re-attached. */
  function FaultyRun(hello: Hello, rq: Request, identity: u64, held: u64, lease: u64, first: u64,
                     chunks: seq<seq<byte>>): seq<Event>
    requires first + |Concat(chunks)| <= U64_MAX
  {
    LeasedRun(hello, rq, identity, held, first, chunks)
    + [Connected(Hello(true, hello.daemon))]
    + [Reattached(rq, Written, RejectionScript(rq, held, lease, first, chunks))]
  }

  lemma RunThen(es: seq<Event>, e: Event)
    ensures Run(NOTHING, es + [e]) == Apply(Run(NOTHING, es), e)
  {
    assert (es + [e])[..|es|] == es;
  }

  /** Every step is one the daemon can take: what arrives is honest, and may arrive on its connection. */
  lemma FaultyRunIsAdmissible(hello: Hello, rq: Request, identity: u64, held: u64, lease: u64, first: u64,
                              chunks: seq<seq<byte>>, d: Streams)
    requires Durable(rq.key) && held < lease && first + |Concat(chunks)| <= U64_MAX
    requires At(d(WireId(rq.key), held), first, Concat(chunks)) && At(d(WireId(rq.key), lease), first, Concat(chunks))
    ensures forall e :: e in FaultyRun(hello, rq, identity, held, lease, first, chunks) ==> Admissible(e, d)
    ensures DeliverableScript(RejectionScript(rq, held, lease, first, chunks), rq, Some(held), false)
  {
    var leased, again := LeasedRun(hello, rq, identity, held, first, chunks), Connected(Hello(true, hello.daemon));
    LeasedRunIsAdmissible(hello, rq, identity, held, first, chunks, d);
    RejectionIsHonest(rq, held, lease, first, chunks, d);
    RejectionIsSendable(rq, held, lease, first, chunks);
    AdmissibleThen(leased, again, d);
    AdmissibleThen(leased + [again], Reattached(rq, Written, RejectionScript(rq, held, lease, first, chunks)), d);
  }

  lemma RejectionIsHonest(rq: Request, held: u64, lease: u64, first: u64, chunks: seq<seq<byte>>, d: Streams)
    requires first + |Concat(chunks)| <= U64_MAX && At(d(WireId(rq.key), lease), first, Concat(chunks))
    ensures HonestScript(RejectionScript(rq, held, lease, first, chunks), d)
  {
    ReplayIsHonest(rq, lease, first, chunks, d);
  }

  lemma AdmissibleThen(es: seq<Event>, e: Event, d: Streams)
    requires Admissible(e, d) && forall x :: x in es ==> Admissible(x, d)
    ensures forall x :: x in es + [e] ==> Admissible(x, d)
  {
  }

  /** Such a run ends with the terminal unbound under a lease of the connection there is: one for every later lease. */
  lemma FaultIsReachable(hello: Hello, rq: Request, identity: u64, held: u64, lease: u64, first: u64,
                         chunks: seq<seq<byte>>, d: Streams)
    requires Durable(rq.key) && held < lease && first + |Concat(chunks)| <= U64_MAX
    requires At(d(WireId(rq.key), held), first, Concat(chunks)) && At(d(WireId(rq.key), lease), first, Concat(chunks))
    ensures var es := FaultyRun(hello, rq, identity, held, lease, first, chunks);
            && (forall e :: e in es ==> Admissible(e, d))
            && DeliverableScript(RejectionScript(rq, held, lease, first, chunks), rq, Some(held), false)
            && Faulty(Run(NOTHING, es), rq.key)
            && Entry(Run(NOTHING, es), rq.key).identity == Some(identity)
            && Entry(Run(NOTHING, es), rq.key).lease == Some(lease)
  {
    var leased := LeasedRun(hello, rq, identity, held, first, chunks);
    var script := RejectionScript(rq, held, lease, first, chunks);
    FaultyRunIsAdmissible(hello, rq, identity, held, lease, first, chunks, d);
    LeasedPaneIsReachable(hello, rq, identity, held, first, chunks, d);
    RunKeepsSound(leased, d);
    RejectedReattachIsFaulty(Run(NOTHING, leased), rq, held, lease, first, chunks, d);
    ConnectedThenReattached(leased, Hello(true, hello.daemon), rq, script);
  }

  lemma ConnectedThenReattached(es: seq<Event>, hello: Hello, rq: Request, script: seq<Received>)
    ensures var u := Install(Run(NOTHING, es), hello, ScopeOf(Run(NOTHING, es)));
            Entry(u, rq.key).attachment.Some? ==>
              Run(NOTHING, es + [Connected(hello)] + [Reattached(rq, Written, script)])
              == Reattach(u, rq, Written, script).table
  {
    RunThen(es, Connected(hello));
    RunThen(es + [Connected(hello)], Reattached(rq, Written, script));
  }

  lemma RejectedReattachIsFaulty(t: Table, rq: Request, held: u64, lease: u64, first: u64, chunks: seq<seq<byte>>,
                                 d: Streams)
    requires Sound(t, d) && IsRunning(t, rq.key) && t.daemon.Some? && first + |Concat(chunks)| <= U64_MAX
    requires Entry(t, rq.key).lease == Some(held) && Entry(t, rq.key).identity.Some?
    ensures var u := Install(t, Hello(true, t.daemon.value), ScopeOf(t));
            var o := Reattach(u, rq, Written, RejectionScript(rq, held, lease, first, chunks));
            && Entry(u, rq.key) == Entry(t, rq.key) && !GrantedHere(u, rq.key)
            && Faulty(o.table, rq.key) && Entry(o.table, rq.key).lease == Some(lease)
            && Entry(o.table, rq.key).identity == Entry(t, rq.key).identity
  {
    var u := Install(t, Hello(true, t.daemon.value), ScopeOf(t));
    InstallKeepsHeld(t, Hello(true, t.daemon.value));
    ResetIsReady(u, rq.key);
    RejectionLeavesItUnbound(ResetParser(u, rq.key), rq, held, lease, first, chunks);
  }

  /** In every run that has come to such a state, no number of attaches on that connection gets the terminal running. */
  lemma ReachableFaultPersists(es: seq<Event>, d: Streams, key: PtyKey, tries: seq<Try>)
    requires forall e :: e in es ==> Admissible(e, d)
    requires Faulty(Run(NOTHING, es), key) && Entry(Run(NOTHING, es), key).identity.Some?
    requires TakenOverEachTime(Run(NOTHING, es), key, tries)
    ensures Faulty(AfterTries(Run(NOTHING, es), key, tries), key)
    ensures !IsRunning(AfterTries(Run(NOTHING, es), key, tries), key)
  {
    RunKeepsSound(es, d);
    FaultPersists(Run(NOTHING, es), key, tries);
  }

  // ---- the object -----------------------------------------------------------

  class PtyRuntime {
    var panes: map<PtyKey, PtyPane>
    var paneIndex: map<u64, PtyKey>
    var daemon: Option<Daemon>
    var connection: nat

    function View(): Table
      reads this
    {
      Table(panes, paneIndex, daemon, connection)
    }

    constructor ()
      ensures View() == NOTHING
    {
      panes, paneIndex, daemon, connection := map[], map[], None, 0;
    }

    /** Look the terminal up, adding an empty pane for a key never seen before. */
    function PaneEntry(key: PtyKey): PtyPane
      reads this
    {
      if key in panes then panes[key] else EMPTY
    }

    method Bind(key: PtyKey, pane: u64)
      modifies this
      ensures View() == BindPane(old(View()), key, pane)
    {
      panes := panes[key := PaneEntry(key).(attachment := Some(pane))];
      paneIndex := paneIndex[pane := key];
    }

    method Clear(pane: u64) returns (cleared: Option<PtyKey>)
      modifies this
      ensures View() == ClearAttachment(old(View()), pane)
      ensures cleared == if pane in old(paneIndex) then Some(old(paneIndex)[pane]) else None
    {
      if pane !in paneIndex { return None; }
      var key := paneIndex[pane];
      paneIndex := paneIndex - {pane};
      if key in panes {
        panes := panes[key := panes[key].(attachment := None, lease := None, expected := None)];
      }
      return Some(key);
    }

    method Remove(key: PtyKey)
      modifies this
      ensures View() == RemoveTerminal(old(View()), key)
    {
      var attachment := PaneEntry(key).attachment;
      panes := panes - {key};
      if attachment.Some? {
        paneIndex := paneIndex - {attachment.value};
      }
    }

    method Reset(key: PtyKey)
      modifies this`panes
      ensures View() == ResetParser(old(View()), key)
    {
      panes := panes[key := PaneEntry(key).(shown := [], exitStatus := None)];
    }

    method Feed(key: PtyKey, bytes: seq<byte>)
      modifies this`panes
      ensures View() == Show(old(View()), key, bytes)
    {
      if bytes == [] { return; }
      panes := panes[key := PaneEntry(key).(shown := PaneEntry(key).shown + bytes)];
    }

    method Unreconcile(pane: u64)
      modifies this`panes
      ensures View() == MarkUnreconciled(old(View()), pane)
    {
      if pane in paneIndex {
        var key := paneIndex[pane];
        panes := panes[key := PaneEntry(key).(lease := None, expected := None)];
      }
    }

    method TakeOutput(pane: u64, sequence: u64, bytes: seq<byte>)
      requires pane in paneIndex && paneIndex[pane] in panes
      modifies this`panes
      ensures panes == old(panes)[paneIndex[pane] := Output(old(panes)[paneIndex[pane]], sequence, bytes)]
    {
      var key := paneIndex[pane];
      assert panes == panes[key := panes[key]];
      var expected := PaneEntry(key).expected;
      if expected.None? { return; }
      if sequence != expected.value {
        Unreconcile(pane);
        return;
      }
      if sequence + |bytes| > U64_MAX {
        Unreconcile(pane);
        return;
      }
      var p := PaneEntry(key);
      assert p.shown + [] == p.shown;
      panes := panes[key := p.(expected := Some(sequence + |bytes|), log := p.log + bytes)];
      Feed(key, bytes);
    }

    method HandleServerMessage(m: ServerMessage)
      modifies this
      ensures View() == HandleMessage(old(View()), m)
    {
      match m {
        case PtyOutput(pane, lease, sequence, bytes) =>
          if LeaseOf(View(), pane) != Some(lease) { return; }
          TakeOutput(pane, sequence, bytes);
        case PaneExited(pane, lease, code) =>
          if LeaseOf(View(), pane) != Some(lease) { return; }
          var cleared := Clear(pane);
          if cleared.Some? {
            panes := panes[cleared.value := PaneEntry(cleared.value).(exitStatus := Some(code))];
          }
        case TakenOver(pane, lease) =>
          if LeaseOf(View(), pane) == Some(lease) {
            var _ := Clear(pane);
          }
        case LeaseRejected(pane, lease, writeRefused) =>
          if LeaseOf(View(), pane) == Some(lease) && !writeRefused {
            var _ := Clear(pane);
          }
        case _ =>
      }
    }

    /** A connection under another scope: no lease survives it. */
    method DropLeases()
      modifies this`panes
      ensures View() == ForgetLeases(old(View()))
    {
      var left := panes.Keys;
      while left != {}
        invariant left <= panes.Keys == old(panes).Keys
        invariant forall key :: key in left ==> panes[key] == old(panes)[key]
        invariant forall key :: key in panes && key !in left ==> panes[key] == Unleased(old(panes)[key])
        decreases |left|
      {
        var key :| key in left;
        panes := panes[key := panes[key].(lease := None, expected := None)];
        left := left - {key};
      }
    }

    /** Adopt a connection; says whether its daemon is the one of before, still keeping this client's scope. */
    method InstallConnection(hello: Hello, requested: Option<u64>) returns (resumedSame: bool)
      modifies this`panes, this`daemon, this`connection
      ensures View() == Install(old(View()), hello, requested)
      ensures resumedSame == ResumedSame(old(View()), hello, requested)
      ensures requested == ScopeOf(old(View())) && HeldHere(old(View())) ==> HeldHere(View())
    {
      resumedSame := hello.resumed && requested == Some(hello.daemon.scope)
                     && daemon.Some? && daemon.value.instance == hello.daemon.instance;
      if daemon.Some? && !resumedSame { DropLeases(); }
      daemon, connection := Some(hello.daemon), connection + 1;
    }

    method RegisterIdentity(key: PtyKey, identity: u64) returns (ok: bool)
      modifies this`panes
      ensures View() == Register(old(View()), key, identity)
      ensures ok <==> Entry(View(), key).identity == Some(identity)
    {
      var current := PaneEntry(key).identity;
      if current.Some? && current != Some(identity) { return false; }
      panes := panes[key := PaneEntry(key).(identity := Some(identity))];
      ok := true;
    }

    /** A reply to the request itself. */
    method AttachReply(rq: Request, st: Attaching, m: ServerMessage)
      returns (next: Attaching, done: Option<AttachResult>)
      requires IsReply(m, rq)
      modifies this`panes
      ensures Reports(OnMessage(old(View()), rq, st, m), View(), next, done)
    {
      var paneId := WireId(rq.key);
      next := st;
      match m {
        case AttachAccepted(_, session, pane, lease) =>
          if session != paneId || pane != paneId { return next, Some(Failed(true)); }
          if st.lease.Some? { return next, Some(Failed(true)); }
          next := next.(lease := Some(lease));
        case AttachRefused(_, unknown) => return next, Some(Rejected(unknown));
        case ReplayBegin(_, pane, lease, first, watermark, omitted) =>
          if pane != paneId || st.lease != Some(lease) || st.next.Some? { return next, Some(Failed(true)); }
          if first > watermark || omitted != first { return next, Some(Failed(true)); }
          next := next.(next := Some(first), watermark := Some(watermark), omitted := omitted);
        case ReplayChunk(_, pane, lease, sequence, bytes) =>
          if st.next.None? { return next, Some(Failed(true)); }
          if pane != paneId || st.lease != Some(lease) || sequence != st.next.value { return next, Some(Failed(true)); }
          if sequence + |bytes| > U64_MAX { return next, Some(Failed(true)); }
          if st.watermark.Some? && sequence + |bytes| > st.watermark.value { return next, Some(Failed(true)); }
          next := next.(bytes := st.bytes + bytes, next := Some(sequence + |bytes|));
        case ReplayEnd(_, pane, lease, watermark) =>
          if pane != paneId || st.lease != Some(lease) || st.watermark != Some(watermark)
             || st.next != Some(watermark) {
            return next, Some(Failed(true));
          }
          ghost var before := PaneEntry(rq.key);
          Feed(rq.key, st.bytes);
          assert before.shown + [] == before.shown;
          panes := panes[rq.key := PaneEntry(rq.key).(lease := Some(lease), expected := Some(watermark),
                                                      grantedBy := daemon, grantedOn := connection,
                                                      first := st.omitted, log := st.bytes)];
          return next, Some(Attached);
      }
      done := None;
    }

    method AttachMessage(rq: Request, st: Attaching, m: ServerMessage)
      returns (next: Attaching, done: Option<AttachResult>)
      modifies this
      ensures Reports(OnMessage(old(View()), rq, st, m), View(), next, done)
    {
      if IsReply(m, rq) {
        next, done := AttachReply(rq, st, m);
        return;
      }
      next, done := st, None;
      if m.PtyOutput? && m.pane == WireId(rq.key) && st.lease == Some(m.lease) { return next, Some(Failed(true)); }
      if m.ConnectionWide? { return next, Some(Rejected(m.unknownSession)); }
      HandleServerMessage(m);
    }

    /** A synchronous reconnect, after which the request is written again; nothing to report when it is. */
    method ResumeAndResend(resumption: Resumption) returns (failure: Option<AttachResult>)
      modifies this`panes, this`daemon, this`connection
      ensures Resumed(View(), failure) == Resume(old(View()), resumption)
    {
      match resumption {
        case NotResumed(uncertain) => return Some(Failed(uncertain));
        case Reconnected(hello) =>
          var same := InstallConnection(hello, ScopeOf(View()));
          return if same then None else Some(Failed(true));
        case Unsent(hello, uncertain) =>
          var same := InstallConnection(hello, ScopeOf(View()));
          return Some(Failed(if same then uncertain else true));
      }
    }

    /** A connection lost while waiting. */
    method AttachLost(rq: Request, st: Attaching, resumption: Resumption)
      returns (next: Attaching, done: Option<AttachResult>)
      modifies this`panes, this`daemon, this`connection
      ensures Reports(OnLost(old(View()), rq, resumption), View(), next, done)
    {
      next := st;
      done := ResumeAndResend(resumption);
      if done.None? {
        Reset(rq.key);
        panes := panes[rq.key := PaneEntry(rq.key).(lease := None, expected := None)];
        next := STARTED;
      }
    }

    method AttachLoop(rq: Request, script: seq<Received>) returns (result: AttachResult)
      modifies this
      ensures Outcome(View(), result) == AttachFrom(old(View()), rq, STARTED, script)
    {
      var collected := STARTED;
      var i := 0;
      while i < |script|
        invariant 0 <= i <= |script|
        invariant AttachFrom(old(View()), rq, STARTED, script) == AttachFrom(View(), rq, collected, script[i..])
      {
        var done: Option<AttachResult>;
        assert script[i..][0] == script[i] && script[i..][1..] == script[i + 1..];
        match script[i] {
          case Got(m) => collected, done := AttachMessage(rq, collected, m);
          case Lost(resumption) => collected, done := AttachLost(rq, collected, resumption);
          case TimedOut => done := Some(Failed(true));
        }
        if done.Some? { return done.value; }
        i := i + 1;
      }
      return Failed(true);
    }

    method Attach(rq: Request, opening: Opening, script: seq<Received>) returns (result: AttachResult)
      modifies this
      ensures Outcome(View(), result) == PerformAttach(old(View()), rq, opening, script)
    {
      if daemon.None? { return Failed(true); }
      match opening {
        case Written =>
        case WriteFailed(uncertain) => return Failed(uncertain);
        case Reopened(resumption) =>
          var failure := ResumeAndResend(resumption);
          if failure.Some? { return failure.value; }
      }
      result := AttachLoop(rq, script);
    }

    method SettleAttach(rq: Request, result: AttachResult)
      modifies this
      ensures Outcome(View(), result) == Settled(Outcome(old(View()), result), rq.key)
    {
      if result.Rejected? || result == Failed(false) {
        var _ := Clear(WireId(rq.key));
      }
    }

    method AttachToExisting(rq: Request, opening: Opening, script: seq<Received>) returns (result: AttachResult)
      modifies this
      ensures Outcome(View(), result) == AttachExisting(old(View()), rq, opening, script)
    {
      if IsRunning(View(), rq.key) { return Attached; }
      if PaneEntry(rq.key).identity.None? { return Unidentified; }
      Reset(rq.key);
      Bind(rq.key, WireId(rq.key));
      result := Attach(rq, opening, script);
      SettleAttach(rq, result);
    }

    method RouteAll(ms: seq<ServerMessage>)
      modifies this
      ensures View() == HandleAll(old(View()), ms)
    {
      for i := 0 to |ms|
        invariant View() == HandleAll(old(View()), ms[..i])
      {
        assert ms[..i + 1][..i] == ms[..i];
        HandleServerMessage(ms[i]);
      }
      assert ms[..|ms|] == ms;
    }

    /** Waiting for the answer to a creation, routing what else arrives. */
    method Create(arrivals: seq<Received>, answer: AttachResult) returns (result: AttachResult)
      modifies this
      ensures Outcome(View(), result) == CreateFrom(old(View()), arrivals, answer)
    {
      for i := 0 to |arrivals|
        invariant CreateFrom(old(View()), arrivals, answer) == CreateFrom(View(), arrivals[i..], answer)
      {
        assert arrivals[i..][0] == arrivals[i] && arrivals[i..][1..] == arrivals[i + 1..];
        match arrivals[i] {
          case Got(m) =>
            if m.ConnectionWide? { return Rejected(m.unknownSession); }
            HandleServerMessage(m);
          case Lost(resumption) =>
            var failure := ResumeAndResend(resumption);
            if failure.Some? { return failure.value; }
          case TimedOut => return Failed(true);
        }
      }
      return answer;
    }

    method StartSession(rq: Request, launch: Launch) returns (result: AttachResult)
      modifies this
      ensures Outcome(View(), result) == StartAttached(old(View()), rq, launch)
    {
      Reset(rq.key);
      if PaneEntry(rq.key).identity.None? { return Unidentified; }
      RouteAll(launch.draining);
      Bind(rq.key, WireId(rq.key));
      result := Create(launch.arrivals, launch.answer);
      if result != Attached {
        SettleAttach(rq, result);
        return;
      }
      result := Attach(rq, launch.opening, launch.script);
      SettleAttach(rq, result);
    }

    method Start(rq: Request, restore: Restore, launch: Launch) returns (result: AttachResult)
      modifies this
      ensures Outcome(View(), result) == StartTerminal(old(View()), rq, restore, launch)
    {
      if IsRunning(View(), rq.key) { return AlreadyRunning; }
      if PaneEntry(rq.key).attachment.Some? {
        result := AttachToExisting(Request(restore.id, rq.key), restore.opening, restore.script);
        if result != Rejected(true) { return; }
      }
      result := StartSession(rq, launch);
    }

    method ReattachTerminal(rq: Request, opening: Opening, script: seq<Received>) returns (result: AttachResult)
      modifies this
      ensures Outcome(View(), result) == Reattach(old(View()), rq, opening, script)
    {
      Reset(rq.key);
      if PaneEntry(rq.key).identity.None? { return Unidentified; }
      result := Attach(rq, opening, script);
      if result == Rejected(true) {
        var _ := Clear(WireId(rq.key));
        panes := panes[rq.key := PaneEntry(rq.key).(exitStatus := Some(1))];
      }
    }

    method StopAsync(key: PtyKey, sent: bool) returns (stopped: bool)
      modifies this
      ensures View() == Stop(old(View()), key, sent)
      ensures stopped <==> sent && IsStoppable(old(View()), key)
    {
      var attachment := PaneEntry(key).attachment;
      if attachment.None? { return false; }
      if LeaseOf(View(), attachment.value).None? || !sent { return false; }
      var _ := Clear(attachment.value);
      panes := panes[key := PaneEntry(key).(exitStatus := None)];
      stopped := true;
    }
  }

  predicate IsStoppable(t: Table, key: PtyKey) {
    var a := Entry(t, key).attachment;
    a.Some? && LeaseOf(t, a.value).Some?
  }

  /** What a step of the attach reports: the new table, and either what is collected or how it ended. */
  predicate Reports(step: Progress, t: Table, next: Attaching, done: Option<AttachResult>) {
    && t == step.table
    && match step
       case More(_, collected) => done.None? && next == collected
       case Finished(_, result) => done == Some(result)
  }
}

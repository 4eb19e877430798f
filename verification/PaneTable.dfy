/**
The client's table of terminals and the server panes they are bound to, and
what each message from the daemon does to it (`PtyRuntime`).
*/
module PaneTable {
  import opened Primitives

  // ---- identifiers ----------------------------------------------------------

  const RUNTIME_FLAG: u64 := 0x8000_0000_0000_0000
  const MAX_DURABLE: u64 := RUNTIME_FLAG - 1

  datatype PtyKey = Terminal(id: u64) | ChatAgent(id: u64)

  /** The IDs the model hands out. */
  predicate Durable(key: PtyKey) {
    1 <= key.id <= MAX_DURABLE
  }

  /** A terminal keeps its ID; a chat's agent sets bit 63. */
  function WireId(key: PtyKey): u64 {
    if key.Terminal? || key.id >= RUNTIME_FLAG then key.id else key.id + RUNTIME_FLAG
  }

  function KeyForPaneId(pane: u64): PtyKey {
    if pane >= RUNTIME_FLAG then ChatAgent(pane - RUNTIME_FLAG) else Terminal(pane)
  }

  /** The two are inverse, except on a key that already uses bit 63. */
  lemma WireIdRoundTrip(key: PtyKey, pane: u64)
    ensures KeyForPaneId(WireId(key)) == key <==> key.id < RUNTIME_FLAG
    ensures WireId(KeyForPaneId(pane)) == pane
  {
  }

  /** Durable keys never share a pane; bit 63 in a stored ID would make two of them collide. */
  lemma WireIdInjective(a: PtyKey, b: PtyKey)
    ensures Durable(a) && Durable(b) && WireId(a) == WireId(b) ==> a == b
    ensures WireId(Terminal(RUNTIME_FLAG + 1)) == WireId(ChatAgent(1))
  {
    WireIdRoundTrip(a, WireId(a));
    WireIdRoundTrip(b, WireId(b));
  }

  // ---- the table ------------------------------------------------------------

  /** The daemon as its greeting names it: the scope it keeps for this client, and which process it is. */
  datatype Daemon = Daemon(scope: u64, instance: u64)

  /**
  `first` and `log` are what a proof remembers of the output accepted since the
  last completed replay, `grantedBy` and `grantedOn` of who granted the lease and
  on which connection; `shown` is everything the parser was fed since it was last made.
  */
  datatype PtyPane = PtyPane(
    attachment: Option<u64>, lease: Option<u64>, expected: Option<u64>, identity: Option<u64>,
    grantedBy: Option<Daemon>, grantedOn: nat, first: u64, log: seq<byte>, shown: seq<byte>, exitStatus: Option<int>)

  const EMPTY := PtyPane(None, None, None, None, None, 0, 0, [], [], None)

  /**
  `daemon` is the last one connected to, kept across a lost connection;
  `connection` is how many have been made, for proofs to tell them apart.
  */
  datatype Table = Table(panes: map<PtyKey, PtyPane>, index: map<u64, PtyKey>, daemon: Option<Daemon>, connection: nat)

  function Entry(t: Table, key: PtyKey): PtyPane {
    if key in t.panes then t.panes[key] else EMPTY
  }

  function Put(t: Table, key: PtyKey, p: PtyPane): Table {
    t.(panes := t.panes[key := p])
  }

  function LeaseOf(t: Table, pane: u64): Option<u64> {
    if pane in t.index then Entry(t, t.index[pane]).lease else None
  }

  predicate IsRunning(t: Table, key: PtyKey) {
    var p := Entry(t, key);
    p.attachment.Some? && p.lease.Some? && p.expected.Some?
  }

  function BindPane(t: Table, key: PtyKey, pane: u64): Table {
    t.(panes := t.panes[key := Entry(t, key).(attachment := Some(pane))], index := t.index[pane := key])
  }

  /** Unbinding a pane takes its lease and watermark as well. */
  function ClearAttachment(t: Table, pane: u64): Table {
    if pane !in t.index then t
    else
      var key, index := t.index[pane], t.index - {pane};
      if key !in t.panes then t.(index := index)
      else t.(panes := t.panes[key := Unbound(t.panes[key])], index := index)
  }

  function Unbound(p: PtyPane): PtyPane {
    p.(attachment := None, lease := None, expected := None)
  }

  function Unleased(p: PtyPane): PtyPane {
    p.(lease := None, expected := None)
  }

  function RemoveTerminal(t: Table, key: PtyKey): Table {
    var a := Entry(t, key).attachment;
    t.(panes := t.panes - {key}, index := if a.None? then t.index else t.index - {a.value})
  }

  function ResetParser(t: Table, key: PtyKey): Table {
    Put(t, key, Entry(t, key).(shown := [], exitStatus := None))
  }

  /** Bytes fed to the parser outside the protocol: the client's own notices. */
  function Show(t: Table, key: PtyKey, bytes: seq<byte>): Table {
    if bytes == [] then t else Put(t, key, Entry(t, key).(shown := Entry(t, key).shown + bytes))
  }

  function MarkUnreconciled(t: Table, pane: u64): Table {
    if pane !in t.index then t else Put(t, t.index[pane], Unleased(Entry(t, t.index[pane])))
  }

  /** Every lease belonged to a client scope the daemon no longer has. */
  function ForgetLeases(t: Table): Table {
    t.(panes := map key | key in t.panes :: Unleased(t.panes[key]))
  }

  /** A key's first identity is its last: another one is refused. */
  function Register(t: Table, key: PtyKey, identity: u64): Table {
    if Entry(t, key).identity.Some? && Entry(t, key).identity != Some(identity) then t
    else Put(t, key, Entry(t, key).(identity := Some(identity)))
  }

  // ---- connections ----------------------------------------------------------

  /** A daemon's greeting; `resumed` is its word that it still keeps the scope asked for. */
  datatype Hello = Hello(resumed: bool, daemon: Daemon)

  function ScopeOf(t: Table): Option<u64> {
    if t.daemon.None? then None else Some(t.daemon.value.scope)
  }

  /** The greeting is from the process connected to before, with the scope that was asked for. */
  predicate ResumedSame(t: Table, hello: Hello, requested: Option<u64>) {
    && hello.resumed && requested == Some(hello.daemon.scope)
    && t.daemon.Some? && t.daemon.value.instance == hello.daemon.instance
  }

  function Install(t: Table, hello: Hello, requested: Option<u64>): Table {
    (if t.daemon.Some? && !ResumedSame(t, hello, requested) then ForgetLeases(t) else t)
    .(daemon := Some(hello.daemon), connection := t.connection + 1)
  }

  // ---- messages -------------------------------------------------------------

  datatype ServerMessage =
    | AttachAccepted(request: u64, session: u64, pane: u64, lease: u64)
    | AttachRefused(request: u64, unknownSession: bool)
    | ReplayBegin(request: u64, pane: u64, lease: u64, first: u64, watermark: u64, omitted: u64)
    | ReplayChunk(request: u64, pane: u64, lease: u64, sequence: u64, bytes: seq<byte>)
    | ReplayEnd(request: u64, pane: u64, lease: u64, watermark: u64)
    | OtherResult(request: u64)
    | PtyOutput(pane: u64, lease: u64, sequence: u64, bytes: seq<byte>)
    | PaneExited(pane: u64, lease: u64, code: int)
    | TakenOver(pane: u64, lease: u64)
    | LeaseRejected(pane: u64, lease: u64, writeRefused: bool)
    | ConnectionWide(unknownSession: bool)

  /** Live output, under the lease held: the next bytes are taken, anything else asks for a fresh replay. */
  function Output(p: PtyPane, sequence: u64, bytes: seq<byte>): PtyPane {
    if p.expected.None? then p
    else if sequence != p.expected.value || sequence + |bytes| > U64_MAX then Unleased(p)
    else p.(expected := Some(sequence + |bytes|), log := p.log + bytes, shown := p.shown + bytes)
  }

  function HandleMessage(t: Table, m: ServerMessage): Table {
    match m
    case PtyOutput(pane, lease, sequence, bytes) =>
      if LeaseOf(t, pane) != Some(lease) then t
      else Put(t, t.index[pane], Output(Entry(t, t.index[pane]), sequence, bytes))
    case PaneExited(pane, lease, code) =>
      if LeaseOf(t, pane) != Some(lease) then t
      else
        var key, cleared := t.index[pane], ClearAttachment(t, pane);
        Put(cleared, key, Entry(cleared, key).(exitStatus := Some(code)))
    case TakenOver(pane, lease) => if LeaseOf(t, pane) != Some(lease) then t else ClearAttachment(t, pane)
    case LeaseRejected(pane, lease, writeRefused) =>
      if LeaseOf(t, pane) != Some(lease) || writeRefused then t else ClearAttachment(t, pane)
    case _ => t
  }

  // ---- the index and the bindings -------------------------------------------

  /** `index` and the bound attachments are mutually inverse, each key bound only to its own pane. */
  ghost predicate Inverse(t: Table) {
    && (forall pane :: pane in t.index ==> t.index[pane] in t.panes && t.panes[t.index[pane]].attachment == Some(pane))
    && (forall key :: key in t.panes && t.panes[key].attachment.Some? ==>
          WireId(key) in t.index && t.index[WireId(key)] == key && t.panes[key].attachment == Some(WireId(key)))
  }

  /** Changing a pane but not its binding. */
  lemma PutKeepsInverse(t: Table, key: PtyKey, p: PtyPane)
    requires Inverse(t) && p.attachment == Entry(t, key).attachment
    ensures Inverse(Put(t, key, p))
  {
  }

  lemma BindKeepsInverse(t: Table, key: PtyKey)
    requires Inverse(t) && Durable(key)
    requires forall k :: k in t.panes ==> Durable(k)
    ensures Inverse(BindPane(t, key, WireId(key)))
  {
    var u := BindPane(t, key, WireId(key));
    assert forall pane :: pane in u.index && pane != WireId(key) ==> t.index[pane] != key;
    forall k | k in u.panes && u.panes[k].attachment.Some?
      ensures WireId(k) in u.index && u.index[WireId(k)] == k && u.panes[k].attachment == Some(WireId(k))
    {
      if k != key { WireIdInjective(k, key); }
    }
  }

  lemma ClearKeepsInverse(t: Table, pane: u64)
    requires Inverse(t)
    ensures Inverse(ClearAttachment(t, pane))
  {
    if pane in t.index {
      var key, u := t.index[pane], ClearAttachment(t, pane);
      forall q | q in u.index ensures u.index[q] in u.panes && u.panes[u.index[q]].attachment == Some(q) {
        assert t.panes[t.index[q]].attachment == Some(q);
      }
    }
  }

  lemma RemoveKeepsInverse(t: Table, key: PtyKey)
    requires Inverse(t)
    ensures Inverse(RemoveTerminal(t, key))
  {
    var u := RemoveTerminal(t, key);
    forall q | q in u.index ensures u.index[q] in u.panes && u.panes[u.index[q]].attachment == Some(q) {
      assert t.panes[t.index[q]].attachment == Some(q);
    }
  }

  lemma MessageKeepsPanes(t: Table, m: ServerMessage)
    requires Inverse(t)
    ensures HandleMessage(t, m).panes.Keys == t.panes.Keys
  {
  }

  lemma MessageKeepsInverse(t: Table, m: ServerMessage)
    requires Inverse(t)
    ensures Inverse(HandleMessage(t, m))
    ensures HandleMessage(t, m).panes.Keys == t.panes.Keys
  {
    MessageKeepsPanes(t, m);
    match m {
      case PtyOutput(pane, lease, sequence, bytes) =>
        if LeaseOf(t, pane) == Some(lease) {
          PutKeepsInverse(t, t.index[pane], Output(Entry(t, t.index[pane]), sequence, bytes));
        }
      case PaneExited(pane, lease, code) =>
        if LeaseOf(t, pane) == Some(lease) {
          ClearKeepsInverse(t, pane);
          var key, cleared := t.index[pane], ClearAttachment(t, pane);
          PutKeepsInverse(cleared, key, Entry(cleared, key).(exitStatus := Some(code)));
        }
      case TakenOver(pane, lease) => ClearKeepsInverse(t, pane);
      case LeaseRejected(pane, lease, writeRefused) => ClearKeepsInverse(t, pane);
      case _ =>
    }
  }

  lemma InstallKeepsInverse(t: Table, hello: Hello, requested: Option<u64>)
    requires Inverse(t)
    ensures Inverse(Install(t, hello, requested))
  {
  }

  // ---- who granted a lease --------------------------------------------------

  /** Every lease held was granted by the daemon now known, under the scope it has for this client. */
  ghost predicate HeldHere(t: Table) {
    forall key :: key in t.panes && t.panes[key].lease.Some? ==>
      t.daemon.Some? && t.panes[key].grantedBy == t.daemon && t.panes[key].grantedOn <= t.connection
  }

  /** The lease was granted on the connection there is now, not on an earlier one. */
  predicate GrantedHere(t: Table, key: PtyKey) {
    Entry(t, key).lease.Some? && Entry(t, key).grantedOn == t.connection
  }

  lemma MessageKeepsHeld(t: Table, m: ServerMessage)
    requires Inverse(t) && HeldHere(t)
    ensures HeldHere(HandleMessage(t, m))
    ensures HandleMessage(t, m).daemon == t.daemon && HandleMessage(t, m).connection == t.connection
  {
  }

  /** No connection, resumed or not, leaves a lease of another daemon or another scope, or has granted one yet. */
  lemma InstallKeepsHeld(t: Table, hello: Hello)
    requires HeldHere(t)
    ensures HeldHere(Install(t, hello, ScopeOf(t)))
    ensures forall key :: !GrantedHere(Install(t, hello, ScopeOf(t)), key)
    ensures ResumedSame(t, hello, ScopeOf(t)) ==> Install(t, hello, ScopeOf(t)) == t.(connection := t.connection + 1)
  {
  }

  // ---- contiguity -----------------------------------------------------------

  /** All a pane ever outputs under a lease, whenever it arrives. */
  type Streams = (u64, u64) -> seq<byte>

  /** `bytes` stand in `stream` at offset `from`. */
  predicate At(stream: seq<byte>, from: nat, bytes: seq<byte>) {
    bytes == [] || (from + |bytes| <= |stream| && stream[from..from + |bytes|] == bytes)
  }

  lemma AtAppend(stream: seq<byte>, from: nat, a: seq<byte>, b: seq<byte>)
    requires At(stream, from, a) && At(stream, from + |a|, b)
    ensures At(stream, from, a + b)
  {
    if a == [] {
      assert a + b == b;
    } else if b == [] {
      assert a + b == a;
    } else {
      assert stream[from..from + |a|] + stream[from + |a|..from + |a| + |b|] == stream[from..from + |a| + |b|];
    }
  }

  /** Output a message carries is what the pane put out at that offset. */
  predicate Honest(m: ServerMessage, d: Streams) {
    match m
    case PtyOutput(pane, lease, sequence, bytes) => At(d(pane, lease), sequence, bytes)
    case ReplayChunk(_, pane, lease, sequence, bytes) => At(d(pane, lease), sequence, bytes)
    case _ => true
  }

  /** A lease comes with a watermark, and the log runs from `first` up to it, as the daemon put it out. */
  predicate ContiguousPane(p: PtyPane, pane: u64, d: Streams) {
    && (p.lease.Some? <==> p.expected.Some?)
    && (p.lease.Some? ==> p.first + |p.log| == p.expected.value && At(d(pane, p.lease.value), p.first, p.log))
  }

  ghost predicate Contiguous(t: Table, d: Streams) {
    forall key :: key in t.panes ==> ContiguousPane(t.panes[key], WireId(key), d)
  }

  lemma OutputKeepsContiguous(p: PtyPane, pane: u64, lease: u64, sequence: u64, bytes: seq<byte>, d: Streams)
    requires ContiguousPane(p, pane, d) && p.lease == Some(lease) && At(d(pane, lease), sequence, bytes)
    ensures ContiguousPane(Output(p, sequence, bytes), pane, d)
  {
    if sequence == p.expected.value && sequence + |bytes| <= U64_MAX {
      AtAppend(d(pane, lease), p.first, p.log, bytes);
    }
  }

  /** Whatever honest message arrives, in whatever order, no log gets a gap, a duplicate or a foreign byte. */
  lemma MessageKeepsContiguous(t: Table, m: ServerMessage, d: Streams)
    requires Inverse(t) && Contiguous(t, d) && Honest(m, d)
    ensures Contiguous(HandleMessage(t, m), d)
  {
    if m.PtyOutput? && LeaseOf(t, m.pane) == Some(m.lease) {
      var key := t.index[m.pane];
      assert WireId(key) == m.pane;
      OutputKeepsContiguous(t.panes[key], m.pane, m.lease, m.sequence, m.bytes, d);
    }
  }

  /** Only an attach gives a lease back: messages alone never do. */
  lemma MessageGrantsNothing(t: Table, m: ServerMessage, key: PtyKey)
    requires Inverse(t) && key in t.panes && t.panes[key].lease.None?
    ensures key in HandleMessage(t, m).panes
    ensures HandleMessage(t, m).panes[key] == t.panes[key]
  {
  }
}

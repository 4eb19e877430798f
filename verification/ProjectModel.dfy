/** The persisted project: workspaces, their chats and terminals, and the identity tables. */
module ProjectModel {
  import opened Primitives
  import opened IdAllocator
  import opened SessionIdentities

  const STATE_VERSION: u32 := 5

  datatype ChatStatus = Idle | Thinking | Waiting | Failed | Done | DoneSeen

  datatype AgentKind = Pi | ClaudeCode | Codex

  datatype ChatMessageRole = User | Assistant | System | Tool | Error

  datatype ChatMessage = ChatMessage(role: ChatMessageRole, text: seq<byte>)

  datatype ChatSession = ChatSession(
    id: u64, name: string, status: ChatStatus, agent: AgentKind, messages: seq<ChatMessage>)

  datatype TerminalLaunch = Shell | Command(command: string)

  datatype TerminalSession = TerminalSession(
    id: u64, name: string, restoreOnLaunch: bool, launch: TerminalLaunch)

  datatype RemoteTarget = RemoteTarget(host: string, path: string, session: string)

  datatype Workspace = Workspace(
    id: u64, name: string, cwd: Option<string>, remote: Option<RemoteTarget>,
    environment: map<string, string>, chats: seq<ChatSession>, terminals: seq<TerminalSession>)

  datatype Project = Project(
    version: u32, namespace: Identity, chatTokens: Table, terminalTokens: Table, generations: Table,
    nextWorkspace: u64, nextChat: u64, nextTerminal: u64, workspaces: seq<Workspace>)

  // ---- IDs in file order ----------------------------------------------------

  function ChatIdsOf(chats: seq<ChatSession>): seq<u64> {
    seq(|chats|, i requires 0 <= i < |chats| => chats[i].id)
  }

  function TerminalIdsOf(terminals: seq<TerminalSession>): seq<u64> {
    seq(|terminals|, i requires 0 <= i < |terminals| => terminals[i].id)
  }

  function WorkspaceIds(ws: seq<Workspace>): seq<u64> {
    seq(|ws|, i requires 0 <= i < |ws| => ws[i].id)
  }

  /** Chat IDs workspace by workspace. */
  function ChatIdsPerWorkspace(ws: seq<Workspace>): seq<seq<u64>> {
    seq(|ws|, i requires 0 <= i < |ws| => ChatIdsOf(ws[i].chats))
  }

  function TerminalIdsPerWorkspace(ws: seq<Workspace>): seq<seq<u64>> {
    seq(|ws|, i requires 0 <= i < |ws| => TerminalIdsOf(ws[i].terminals))
  }

  function ChatIds(ws: seq<Workspace>): seq<u64> {
    Concat(ChatIdsPerWorkspace(ws))
  }

  function TerminalIds(ws: seq<Workspace>): seq<u64> {
    Concat(TerminalIdsPerWorkspace(ws))
  }

  // ---- putting IDs back -----------------------------------------------------

  /** `flat` cut into pieces of the lengths of `shape`. */
  function Reshape(shape: seq<seq<u64>>, flat: seq<u64>): (r: seq<seq<u64>>)
    requires |flat| == |Concat(shape)|
    ensures |r| == |shape| && Concat(r) == flat
    ensures forall i :: 0 <= i < |shape| ==> |r[i]| == |shape[i]|
  {
    if shape == [] then []
    else
      var n := |shape[0]|;
      var rest := Reshape(shape[1..], flat[n..]);
      assert ([flat[..n]] + rest)[1..] == rest;
      [flat[..n]] + rest
  }

  lemma {:induction false} ReshapeSame(shape: seq<seq<u64>>)
    ensures Reshape(shape, Concat(shape)) == shape
  {
    if shape != [] {
      ReshapeSame(shape[1..]);
      assert Concat(shape)[|shape[0]|..] == Concat(shape[1..]);
      assert shape == [shape[0]] + shape[1..];
    }
  }

  function RenumberChats(chats: seq<ChatSession>, ids: seq<u64>): seq<ChatSession>
    requires |ids| == |chats|
  {
    seq(|chats|, i requires 0 <= i < |chats| => chats[i].(id := ids[i]))
  }

  function RenumberTerminals(terminals: seq<TerminalSession>, ids: seq<u64>): seq<TerminalSession>
    requires |ids| == |terminals|
  {
    seq(|terminals|, i requires 0 <= i < |terminals| => terminals[i].(id := ids[i]))
  }

  function WithWorkspaceIds(ws: seq<Workspace>, ids: seq<u64>): (r: seq<Workspace>)
    requires |ids| == |ws|
    ensures WorkspaceIds(r) == ids
    ensures ChatIds(r) == ChatIds(ws) && TerminalIds(r) == TerminalIds(ws)
  {
    var r := seq(|ws|, i requires 0 <= i < |ws| => ws[i].(id := ids[i]));
    assert ChatIdsPerWorkspace(r) == ChatIdsPerWorkspace(ws);
    assert TerminalIdsPerWorkspace(r) == TerminalIdsPerWorkspace(ws);
    r
  }

  function WithChatIds(ws: seq<Workspace>, ids: seq<u64>): (r: seq<Workspace>)
    requires |ids| == |ChatIds(ws)|
    ensures ChatIds(r) == ids
    ensures WorkspaceIds(r) == WorkspaceIds(ws) && TerminalIds(r) == TerminalIds(ws)
  {
    var parts := Reshape(ChatIdsPerWorkspace(ws), ids);
    var r := seq(|ws|, i requires 0 <= i < |ws| => ws[i].(chats := RenumberChats(ws[i].chats, parts[i])));
    assert forall i :: 0 <= i < |ws| ==> ChatIdsOf(r[i].chats) == parts[i];
    assert ChatIdsPerWorkspace(r) == parts;
    assert TerminalIdsPerWorkspace(r) == TerminalIdsPerWorkspace(ws);
    r
  }

  function WithTerminalIds(ws: seq<Workspace>, ids: seq<u64>): (r: seq<Workspace>)
    requires |ids| == |TerminalIds(ws)|
    ensures TerminalIds(r) == ids
    ensures WorkspaceIds(r) == WorkspaceIds(ws) && ChatIds(r) == ChatIds(ws)
  {
    var parts := Reshape(TerminalIdsPerWorkspace(ws), ids);
    var r := seq(|ws|, i requires 0 <= i < |ws| =>
                         ws[i].(terminals := RenumberTerminals(ws[i].terminals, parts[i])));
    assert forall i :: 0 <= i < |ws| ==> TerminalIdsOf(r[i].terminals) == parts[i];
    assert TerminalIdsPerWorkspace(r) == parts;
    assert ChatIdsPerWorkspace(r) == ChatIdsPerWorkspace(ws);
    r
  }

  lemma WithSameIds(ws: seq<Workspace>)
    ensures WithWorkspaceIds(ws, WorkspaceIds(ws)) == ws
    ensures WithChatIds(ws, ChatIds(ws)) == ws
    ensures WithTerminalIds(ws, TerminalIds(ws)) == ws
  {
    ReshapeSame(ChatIdsPerWorkspace(ws));
    ReshapeSame(TerminalIdsPerWorkspace(ws));
    forall i | 0 <= i < |ws|
      ensures RenumberChats(ws[i].chats, ChatIdsOf(ws[i].chats)) == ws[i].chats
      ensures RenumberTerminals(ws[i].terminals, TerminalIdsOf(ws[i].terminals)) == ws[i].terminals
    {
    }
    assert WithChatIds(ws, ChatIds(ws)) == ws;
    assert WithTerminalIds(ws, TerminalIds(ws)) == ws;
  }

  // ---- everything but the IDs -----------------------------------------------

  function WorkspaceWithoutIds(w: Workspace): Workspace {
    w.(id := 0, chats := RenumberChats(w.chats, seq(|w.chats|, _ => 0)),
       terminals := RenumberTerminals(w.terminals, seq(|w.terminals|, _ => 0)))
  }

  /** The workspaces with every ID blanked: what a renumbering must not touch. */
  function WithoutIds(ws: seq<Workspace>): seq<Workspace> {
    seq(|ws|, i requires 0 <= i < |ws| => WorkspaceWithoutIds(ws[i]))
  }

  lemma RenumberingKeepsTheRest(ws: seq<Workspace>, w: seq<u64>, c: seq<u64>, t: seq<u64>)
    requires |w| == |ws| && |c| == |ChatIds(ws)| && |t| == |TerminalIds(ws)|
    ensures WithoutIds(WithWorkspaceIds(ws, w)) == WithoutIds(ws)
    ensures WithoutIds(WithChatIds(ws, c)) == WithoutIds(ws)
    ensures WithoutIds(WithTerminalIds(ws, t)) == WithoutIds(ws)
  {
    var chats := Reshape(ChatIdsPerWorkspace(ws), c);
    var terminals := Reshape(TerminalIdsPerWorkspace(ws), t);
    forall i | 0 <= i < |ws|
      ensures WorkspaceWithoutIds(WithWorkspaceIds(ws, w)[i]) == WorkspaceWithoutIds(ws[i])
      ensures WorkspaceWithoutIds(WithChatIds(ws, c)[i]) == WorkspaceWithoutIds(ws[i])
      ensures WorkspaceWithoutIds(WithTerminalIds(ws, t)[i]) == WorkspaceWithoutIds(ws[i])
    {
      var zeroC: seq<u64> := seq(|ws[i].chats|, _ => 0);
      var zeroT: seq<u64> := seq(|ws[i].terminals|, _ => 0);
      assert RenumberChats(RenumberChats(ws[i].chats, chats[i]), zeroC) == RenumberChats(ws[i].chats, zeroC);
      assert RenumberTerminals(RenumberTerminals(ws[i].terminals, terminals[i]), zeroT)
             == RenumberTerminals(ws[i].terminals, zeroT);
    }
  }

  // ---- validation -----------------------------------------------------------

  datatype ValidationError =
    | WorkspaceIdsInvalid | ChatIdsInvalid | TerminalIdsInvalid
    | ChatTableMismatch | TerminalTableMismatch | TokensNotUnique
    | GenerationWithoutChat | GenerationsNotUnique

  predicate IsDurable(id: u64) {
    InRange(id, MAX_DURABLE_SESSION_ID)
  }

  function ValidateIds(p: Project): Option<ValidationError> {
    var workspaceIds := Elements(WorkspaceIds(p.workspaces));
    var chats, terminals := ChatIds(p.workspaces), TerminalIds(p.workspaces);
    if |workspaceIds| != |p.workspaces| || 0 in workspaceIds then Some(WorkspaceIdsInvalid)
    else if |Elements(chats)| != |chats| || exists id :: id in Elements(chats) && !IsDurable(id) then
      Some(ChatIdsInvalid)
    else if |Elements(terminals)| != |terminals| || exists id :: id in Elements(terminals) && !IsDurable(id) then
      Some(TerminalIdsInvalid)
    else None
  }

  predicate TableMismatch(ids: set<u64>, t: Table) {
    |ids| != |t| || exists id :: id in ids && id !in t
  }

  function ValidateTables(p: Project): Option<ValidationError> {
    if TableMismatch(Elements(ChatIds(p.workspaces)), p.chatTokens) then Some(ChatTableMismatch)
    else if TableMismatch(Elements(TerminalIds(p.workspaces)), p.terminalTokens) then
      Some(TerminalTableMismatch)
    else if |p.chatTokens.Values + p.terminalTokens.Values| != |p.chatTokens| + |p.terminalTokens| then
      Some(TokensNotUnique)
    else None
  }

  function ValidateGenerations(p: Project): Option<ValidationError> {
    if exists id :: id in p.generations && id !in Elements(ChatIds(p.workspaces)) then
      Some(GenerationWithoutChat)
    else if |p.generations.Values| != |p.generations| then Some(GenerationsNotUnique)
    else None
  }

  /** `validate_session_identities`, check by check and in its order, by counting set elements. */
  function Validate(p: Project): Option<ValidationError> {
    var ids := ValidateIds(p);
    if ids.Some? then ids
    else
      var tables := ValidateTables(p);
      if tables.Some? then tables else ValidateGenerations(p)
  }

  /** A list of distinct valid IDs. */
  predicate GoodIds(ids: seq<u64>, max: u64) {
    Distinct(ids) && forall i :: 0 <= i < |ids| ==> InRange(ids[i], max)
  }

  ghost predicate CoherentIds(p: Project) {
    && GoodIds(WorkspaceIds(p.workspaces), U64_MAX)
    && GoodIds(ChatIds(p.workspaces), MAX_DURABLE_SESSION_ID)
    && GoodIds(TerminalIds(p.workspaces), MAX_DURABLE_SESSION_ID)
  }

  ghost predicate CoherentTables(p: Project) {
    && p.chatTokens.Keys == Elements(ChatIds(p.workspaces))
    && p.terminalTokens.Keys == Elements(TerminalIds(p.workspaces))
    && Injective(p.chatTokens) && Apart(p.terminalTokens, p.chatTokens.Values)
  }

  ghost predicate CoherentGenerations(p: Project) {
    p.generations.Keys <= Elements(ChatIds(p.workspaces)) && Injective(p.generations)
  }

  /**
  What an accepted state means: unique valid IDs, one token for each session and
  none twice, and generations of existing chats, none twice.
  */
  ghost predicate Coherent(p: Project) {
    CoherentIds(p) && CoherentTables(p) && CoherentGenerations(p)
  }

  lemma {:induction false} ValuesCount(t: Table)
    ensures |t.Values| <= |t|
    ensures Injective(t) <==> |t.Values| == |t|
    decreases |t|
  {
    if t.Keys == {} {
      assert t == map[] && t.Values == {};
    } else {
      var k :| k in t.Keys;
      var rest := t - {k};
      ValuesCount(rest);
      assert rest[k := t[k]] == t;
      ValuesOfInsert(rest, k, t[k]);
      assert t.Keys == rest.Keys + {k};
      InjectiveInsert(rest, k, t[k]);
    }
  }

  lemma InjectiveInsert(rest: Table, k: u64, v: Identity)
    requires k !in rest
    ensures Injective(rest[k := v]) <==> Injective(rest) && v !in rest.Values
  {
    var t := rest[k := v];
    if v in rest.Values {
      var j :| j in rest && rest[j] == v;
      assert t[j] == t[k];
    } else {
      assert forall j :: j in rest ==> rest[j] in rest.Values && t[j] == rest[j];
    }
  }

  lemma TwoTablesCount(a: Table, b: Table)
    ensures |a.Values + b.Values| == |a| + |b| <==> Injective(a) && Apart(b, a.Values)
  {
    ValuesCount(a);
    ValuesCount(b);
    var both := a.Values + b.Values;
    assert |both| == |a.Values| + |b.Values| - |a.Values * b.Values|;
    assert (forall k :: k in b ==> b[k] !in a.Values) <==> a.Values * b.Values == {} by {
      if a.Values * b.Values != {} {
        var v :| v in a.Values * b.Values;
        var k :| k in b && b[k] == v;
      }
      forall k | k in b && b[k] in a.Values ensures b[k] in a.Values * b.Values {
        assert b[k] in b.Values;
      }
    }
  }

  lemma GoodIdsByCounting(ids: seq<u64>, max: u64)
    ensures GoodIds(ids, max)
            <==> |Elements(ids)| == |ids| && forall id :: id in Elements(ids) ==> InRange(id, max)
  {
    ElementsBound(ids);
  }

  lemma ValidateIdsAccepts(p: Project)
    ensures ValidateIds(p).None? <==> CoherentIds(p)
  {
    GoodIdsByCounting(WorkspaceIds(p.workspaces), U64_MAX);
    GoodIdsByCounting(ChatIds(p.workspaces), MAX_DURABLE_SESSION_ID);
    GoodIdsByCounting(TerminalIds(p.workspaces), MAX_DURABLE_SESSION_ID);
  }

  lemma TableMatches(ids: seq<u64>, t: Table)
    ensures !TableMismatch(Elements(ids), t) <==> t.Keys == Elements(ids)
  {
    assert |t| == |t.Keys|;
    if forall id :: id in Elements(ids) ==> id in t {
      SubsetSize(Elements(ids), t.Keys);
    }
  }

  lemma ValidateTablesAccepts(p: Project)
    ensures ValidateTables(p).None? <==> CoherentTables(p)
  {
    TableMatches(ChatIds(p.workspaces), p.chatTokens);
    TableMatches(TerminalIds(p.workspaces), p.terminalTokens);
    TwoTablesCount(p.chatTokens, p.terminalTokens);
  }

  /** Counting accepts exactly the coherent states. */
  lemma ValidateAcceptsCoherent(p: Project)
    ensures Validate(p).None? <==> Coherent(p)
  {
    ValidateIdsAccepts(p);
    ValidateTablesAccepts(p);
    ValuesCount(p.generations);
  }
}

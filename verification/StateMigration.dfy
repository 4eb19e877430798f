/**
The on-disk versions 1 to 4 and the chain that brings each to the current
shape, one hop per version, repairing IDs, tables and statuses on the way.
*/
module StateMigration {
  import opened Primitives
  import opened IdAllocator
  import opened IdRepair
  import opened SessionIdentities
  import opened ProjectModel
  import opened ProjectNormalization
  import opened ProjectOperations

  datatype TerminalStatusV2 = Stopped | Running

  datatype TerminalV2 = TerminalV2(id: u64, name: string, status: TerminalStatusV2, launch: TerminalLaunch)

  datatype WorkspaceV2 = WorkspaceV2(
    id: u64, name: string, cwd: Option<string>, environment: map<string, string>,
    chats: seq<ChatSession>, terminals: seq<TerminalV2>)

  /** Version 1 has the same workspaces as version 2 and no identities at all. */
  datatype StateV1 = StateV1(nextWorkspace: u64, nextChat: u64, nextTerminal: u64, workspaces: seq<WorkspaceV2>)

  datatype StateV2 = StateV2(
    namespace: Identity, chatTokens: Table, terminalTokens: Table, generations: Table,
    nextWorkspace: u64, nextChat: u64, nextTerminal: u64, workspaces: seq<WorkspaceV2>)

  datatype WorkspaceV3 = WorkspaceV3(
    id: u64, name: string, cwd: Option<string>, environment: map<string, string>,
    chats: seq<ChatSession>, terminals: seq<TerminalSession>)

  datatype StateV3 = StateV3(
    namespace: Identity, chatTokens: Table, terminalTokens: Table, generations: Table,
    nextWorkspace: u64, nextChat: u64, nextTerminal: u64, workspaces: seq<WorkspaceV3>)

  datatype LoadError =
    IdsExhausted | EntropyFailed | NotCurrent | Oversized | UnsupportedVersion(found: u32) | DirectoryFailed

  datatype Migrated = Migrated(result: Result<Project, LoadError>, position: nat)

  // ---- the hops -------------------------------------------------------------

  function TerminalToV3(t: TerminalV2): TerminalSession {
    TerminalSession(t.id, t.name, t.status == Running, t.launch)
  }

  function TerminalsToV3(ts: seq<TerminalV2>): seq<TerminalSession> {
    seq(|ts|, i requires 0 <= i < |ts| => TerminalToV3(ts[i]))
  }

  function WorkspacesToV3(ws: seq<WorkspaceV2>): seq<WorkspaceV3> {
    seq(|ws|, i requires 0 <= i < |ws| =>
              WorkspaceV3(ws[i].id, ws[i].name, ws[i].cwd, ws[i].environment, ws[i].chats,
                          TerminalsToV3(ws[i].terminals)))
  }

  function MigrateV2ToV3(decoded: StateV2): StateV3 {
    StateV3(decoded.namespace, decoded.chatTokens, decoded.terminalTokens, decoded.generations,
            decoded.nextWorkspace, decoded.nextChat, decoded.nextTerminal, WorkspacesToV3(decoded.workspaces))
  }

  /** Version 3 knows no other machine. */
  function LocalWorkspaces(ws: seq<WorkspaceV3>): seq<Workspace> {
    seq(|ws|, i requires 0 <= i < |ws| =>
              Workspace(ws[i].id, ws[i].name, ws[i].cwd, None, ws[i].environment, ws[i].chats, ws[i].terminals))
  }

  function DecodedV3(decoded: StateV3): Project {
    Project(4, decoded.namespace, decoded.chatTokens, decoded.terminalTokens, decoded.generations,
            decoded.nextWorkspace, decoded.nextChat, decoded.nextTerminal, LocalWorkspaces(decoded.workspaces))
  }

  /** The repairs every load applies, in order: IDs and hints, tables, statuses. */
  function Repair(p: Project, draws: nat -> Draw, position: nat): Migrated {
    var ids := NormalizeNextIds(p);
    if ids.Err? then Migrated(Err(IdsExhausted), position)
    else
      var tables := NormalizeIdentities(ids.value, draws, position);
      if tables.project.None? then Migrated(Err(EntropyFailed), tables.position)
      else Migrated(Ok(NormalizeStatuses(tables.project.value)), tables.position)
  }

  function ValidateCurrent(m: Migrated): Migrated {
    if m.result.Ok? && (m.result.value.version != STATE_VERSION || Validate(m.result.value).Some?) then
      m.(result := Err(NotCurrent))
    else m
  }

  function MigrateV4ToV5(p: Project): Project {
    p.(version := STATE_VERSION)
  }

  function MigrateV3ToCurrent(decoded: StateV3, draws: nat -> Draw, position: nat): Migrated {
    var v4 := Repair(DecodedV3(decoded), draws, position);
    ValidateCurrent(if v4.result.Ok? then v4.(result := Ok(MigrateV4ToV5(v4.result.value))) else v4)
  }

  function MigrateV2ToCurrent(decoded: StateV2, draws: nat -> Draw, position: nat): Migrated {
    MigrateV3ToCurrent(MigrateV2ToV3(decoded), draws, position)
  }

  /** A namespace is minted; the token tables start empty. */
  function MigrateV1ToCurrent(decoded: StateV1, draws: nat -> Draw, position: nat): Migrated {
    var namespace := Mint(draws, position, {}, MAX_ATTEMPTS);
    if namespace.identity.None? then Migrated(Err(EntropyFailed), namespace.position)
    else
      MigrateV2ToCurrent(
        StateV2(namespace.identity.value, map[], map[], map[],
                decoded.nextWorkspace, decoded.nextChat, decoded.nextTerminal, decoded.workspaces),
        draws, namespace.position)
  }

  // ---- what repair keeps ----------------------------------------------------

  /** The repaired chat against the decoded one: only its ID, and a status nothing owns, may differ. */
  predicate ChatCarried(before: ChatSession, after: ChatSession, generations: set<u64>) {
    && after.name == before.name && after.agent == before.agent && after.messages == before.messages
    && after.status == (if NeedsOwner(before.status) && after.id !in generations then Idle else before.status)
  }

  predicate TerminalCarried(before: TerminalSession, after: TerminalSession) {
    && after.name == before.name && after.launch == before.launch
    && after.restoreOnLaunch == before.restoreOnLaunch
  }

  ghost predicate WorkspaceCarried(before: Workspace, after: Workspace, generations: set<u64>) {
    && after.name == before.name && after.cwd == before.cwd && after.remote == before.remote
    && after.environment == before.environment
    && |after.chats| == |before.chats| && |after.terminals| == |before.terminals|
    && (forall c :: 0 <= c < |before.chats| ==> ChatCarried(before.chats[c], after.chats[c], generations))
    && (forall t :: 0 <= t < |before.terminals| ==> TerminalCarried(before.terminals[t], after.terminals[t]))
  }

  ghost predicate WorkspacesCarried(before: seq<Workspace>, after: seq<Workspace>, generations: set<u64>) {
    && |after| == |before|
    && forall w :: 0 <= w < |before| ==> WorkspaceCarried(before[w], after[w], generations)
  }

  lemma SameWithoutIdsCarries(before: Workspace, after: Workspace, generations: set<u64>)
    requires WorkspaceWithoutIds(before) == WorkspaceWithoutIds(after)
    ensures WorkspaceCarried(before, after.(chats := SettledChats(after.chats, generations)), generations)
  {
    var b, a := WorkspaceWithoutIds(before), WorkspaceWithoutIds(after);
    forall c | 0 <= c < |before.chats|
      ensures ChatCarried(before.chats[c], SettledChats(after.chats, generations)[c], generations)
    {
      assert b.chats[c] == a.chats[c];
    }
    forall t | 0 <= t < |before.terminals|
      ensures TerminalCarried(before.terminals[t], after.terminals[t])
    {
      assert b.terminals[t] == a.terminals[t];
    }
  }

  ghost predicate IdsRepaired(before: seq<Workspace>, after: seq<Workspace>) {
    && RepairOf(WorkspaceIds(before), WorkspaceIds(after), U64_MAX)
    && RepairOf(ChatIds(before), ChatIds(after), MAX_DURABLE_SESSION_ID)
    && RepairOf(TerminalIds(before), TerminalIds(after), MAX_DURABLE_SESSION_ID)
  }

  /** What a successful repair of any decoded project guarantees. */
  ghost predicate RepairedFrom(p: Project, q: Project) {
    && Coherent(q) && HintsStable(q) && StatusesOwned(q)
    && q.version == p.version && q.namespace == p.namespace
    && WorkspacesCarried(p.workspaces, q.workspaces, q.generations.Keys)
    && IdsRepaired(p.workspaces, q.workspaces)
    && TablesSurvive(p.chatTokens, p.terminalTokens, p.generations, q)
  }

  /** The project between the table repair and the status repair. */
  lemma RepairedTables(p: Project, draws: nat -> Draw, position: nat) returns (tables: Project)
    ensures var r := Repair(p, draws, position).result;
            r.Ok? ==>
              && r.value == NormalizeStatuses(tables) && Coherent(tables) && HintsStable(tables)
              && tables.version == p.version && tables.namespace == p.namespace
              && WorkspacesRepaired(p.workspaces, tables.workspaces)
              && TablesSurvive(p.chatTokens, p.terminalTokens, p.generations, tables)
  {
    tables := p;
    if Repair(p, draws, position).result.Ok? {
      var ids := NormalizeNextIds(p).value;
      tables := NormalizeIdentities(ids, draws, position).project.value;
      RepairedWorkspacesIs(p.workspaces);
      NormalizationSettles(p, draws, position);
      ValidateAcceptsCoherent(tables);
      TablesKeepTheRest(ids, draws, position);
      RepairedTablesSurvive(ids, draws, position);
    }
  }

  lemma StatusRepairCarries(before: seq<Workspace>, tables: Project)
    requires WithoutIds(tables.workspaces) == WithoutIds(before)
    ensures WorkspacesCarried(before, NormalizeStatuses(tables).workspaces, tables.generations.Keys)
  {
    assert |WithoutIds(tables.workspaces)| == |WithoutIds(before)|;
    forall w | 0 <= w < |before|
      ensures WorkspaceCarried(before[w], NormalizeStatuses(tables).workspaces[w], tables.generations.Keys)
    {
      assert WithoutIds(before)[w] == WithoutIds(tables.workspaces)[w];
      SameWithoutIdsCarries(before[w], tables.workspaces[w], tables.generations.Keys);
    }
  }

  lemma StatusRepairKeepsState(tables: Project)
    requires Coherent(tables) && HintsStable(tables)
    ensures var q := NormalizeStatuses(tables);
            Coherent(q) && HintsStable(q) && StatusesOwned(q)
  {
    StatusesSettle(tables);
  }

  lemma StatusRepairKeepsIds(before: seq<Workspace>, tables: Project)
    requires WorkspacesRepaired(before, tables.workspaces)
    ensures IdsRepaired(before, NormalizeStatuses(tables).workspaces)
  {
    StatusesSettle(tables);
  }

  lemma StatusRepairKeepsTables(p: Project, tables: Project)
    requires TablesSurvive(p.chatTokens, p.terminalTokens, p.generations, tables)
    ensures TablesSurvive(p.chatTokens, p.terminalTokens, p.generations, NormalizeStatuses(tables))
  {
    StatusesSettle(tables);
  }

  /** Whatever was decoded, the repair carries every session, and every table entry that survives. */
  lemma RepairKeepsSessions(p: Project, draws: nat -> Draw, position: nat)
    ensures Repair(p, draws, position).result.Ok? ==> RepairedFrom(p, Repair(p, draws, position).result.value)
  {
    if Repair(p, draws, position).result.Ok? {
      var tables := RepairedTables(p, draws, position);
      StatusRepairKeepsState(tables);
      StatusRepairKeepsIds(p.workspaces, tables);
      StatusRepairKeepsTables(p, tables);
      StatusRepairCarries(p.workspaces, tables);
    }
  }

  lemma TablesKeepTheRest(p: Project, draws: nat -> Draw, position: nat)
    ensures var r := NormalizeIdentities(p, draws, position).project;
            r.Some? ==>
              r.value == p.(chatTokens := r.value.chatTokens, terminalTokens := r.value.terminalTokens,
                            generations := r.value.generations)
  {
    RetainedTablesClean(p);
    FilledTablesCover(RetainedTables(p), draws, position);
  }

  /** A table of sessions that are there under valid IDs, perhaps among others that are not. */
  predicate SpeaksOf(t: Table, ids: seq<u64>) {
    t.Keys <= ValidIds(ids, MAX_DURABLE_SESSION_ID)
  }

  /** The token tables speak of sessions that are there, each with its own token. */
  predicate ConsistentTables(p: Project) {
    && SpeaksOf(p.chatTokens, ChatIds(p.workspaces)) && SpeaksOf(p.terminalTokens, TerminalIds(p.workspaces))
    && Injective(p.chatTokens) && Apart(p.terminalTokens, p.chatTokens.Values)
  }

  predicate ConsistentGenerations(p: Project) {
    SpeaksOf(p.generations, ChatIds(p.workspaces)) && Injective(p.generations)
  }

  /** Consistent token tables survive entry for entry, whatever IDs have to be repaired beside them. */
  lemma RepairedFromKeepsTokens(p: Project, q: Project)
    requires RepairedFrom(p, q) && ConsistentTables(p)
    ensures Extends(p.chatTokens, q.chatTokens) && Extends(p.terminalTokens, q.terminalTokens)
  {
    var chats, terminals := Elements(ChatIds(q.workspaces)), Elements(TerminalIds(q.workspaces));
    ValidIdsStay(ChatIds(p.workspaces), ChatIds(q.workspaces), MAX_DURABLE_SESSION_ID);
    ValidIdsStay(TerminalIds(p.workspaces), TerminalIds(q.workspaces), MAX_DURABLE_SESSION_ID);
    forall k | k in p.chatTokens ensures k in q.chatTokens && q.chatTokens[k] == p.chatTokens[k] {
      AllSurvive(p.chatTokens, chats, {}, k);
    }
    forall k | k in p.terminalTokens ensures k in q.terminalTokens && q.terminalTokens[k] == p.terminalTokens[k] {
      AllSurvive(p.terminalTokens, terminals, SurvivingTokens(p.chatTokens, chats), k);
    }
  }

  /** A consistent generation table is kept as it is, so a chat is idled exactly when nothing decoded owned it. */
  lemma RepairedFromKeepsGenerations(p: Project, q: Project)
    requires RepairedFrom(p, q) && ConsistentGenerations(p)
    ensures q.generations == p.generations
    ensures WorkspacesCarried(p.workspaces, q.workspaces, p.generations.Keys)
  {
    ValidIdsStay(ChatIds(p.workspaces), ChatIds(q.workspaces), MAX_DURABLE_SESSION_ID);
    LiveGenerationsStay(p.chatTokens, p.terminalTokens, p.generations, q);
  }

  lemma LiveGenerationsStay(chatTokens: Table, terminalTokens: Table, generations: Table, q: Project)
    requires TablesSurvive(chatTokens, terminalTokens, generations, q)
    requires generations.Keys <= Elements(ChatIds(q.workspaces)) && Injective(generations)
    ensures q.generations == generations
  {
    forall k | k in generations ensures k in q.generations && q.generations[k] == generations[k] {
      AllSurvive(generations, Elements(ChatIds(q.workspaces)), {}, k);
    }
    assert q.generations.Keys == generations.Keys;
  }

  lemma RepairKeepsTokens(p: Project, draws: nat -> Draw, position: nat)
    requires ConsistentTables(p)
    ensures Repair(p, draws, position).result.Ok? ==>
              var q := Repair(p, draws, position).result.value;
              Extends(p.chatTokens, q.chatTokens) && Extends(p.terminalTokens, q.terminalTokens)
  {
    RepairKeepsSessions(p, draws, position);
    if Repair(p, draws, position).result.Ok? {
      RepairedFromKeepsTokens(p, Repair(p, draws, position).result.value);
    }
  }

  lemma RepairKeepsGenerations(p: Project, draws: nat -> Draw, position: nat)
    requires ConsistentGenerations(p)
    ensures Repair(p, draws, position).result.Ok? ==>
              var q := Repair(p, draws, position).result.value;
              q.generations == p.generations && WorkspacesCarried(p.workspaces, q.workspaces, p.generations.Keys)
  {
    RepairKeepsSessions(p, draws, position);
    if Repair(p, draws, position).result.Ok? {
      RepairedFromKeepsGenerations(p, Repair(p, draws, position).result.value);
    }
  }

  // ---- what migration keeps -------------------------------------------------

  /** A version-2 terminal comes back with its name and launch, and is restored exactly if it was running. */
  predicate TerminalMigrated(before: TerminalV2, after: TerminalSession) {
    && after.name == before.name && after.launch == before.launch
    && (after.restoreOnLaunch <==> before.status == Running)
  }

  ghost predicate WorkspaceMigrated(before: WorkspaceV2, after: Workspace, generations: set<u64>) {
    && after.name == before.name && after.cwd == before.cwd && after.remote == None
    && after.environment == before.environment
    && |after.chats| == |before.chats| && |after.terminals| == |before.terminals|
    && (forall c :: 0 <= c < |before.chats| ==> ChatCarried(before.chats[c], after.chats[c], generations))
    && (forall t :: 0 <= t < |before.terminals| ==> TerminalMigrated(before.terminals[t], after.terminals[t]))
  }

  ghost predicate WorkspacesMigrated(before: seq<WorkspaceV2>, after: seq<Workspace>, generations: set<u64>) {
    && |after| == |before|
    && forall w :: 0 <= w < |before| ==> WorkspaceMigrated(before[w], after[w], generations)
  }

  lemma MigrateV3IsRepair(decoded: StateV3, draws: nat -> Draw, position: nat)
    ensures var m := MigrateV3ToCurrent(decoded, draws, position);
            && (m.result.Ok? <==> Repair(DecodedV3(decoded), draws, position).result.Ok?)
            && (m.result.Ok? ==>
                  && SettledProject(m.result.value)
                  && RepairedFrom(DecodedV3(decoded), m.result.value.(version := 4)))
  {
    var r := Repair(DecodedV3(decoded), draws, position);
    if r.result.Ok? {
      RepairKeepsSessions(DecodedV3(decoded), draws, position);
      var q := MigrateV4ToV5(r.result.value);
      assert q.(version := 4) == r.result.value;
      ValidateAcceptsCoherent(q);
    }
  }

  /** A version-2 state as version 3 decodes it: the same IDs, in the same order. */
  function DecodedV2(decoded: StateV2): Project {
    DecodedV3(MigrateV2ToV3(decoded))
  }

  /** What a version-2 state becomes: its sessions, its IDs and its tables. */
  ghost predicate MigratedFrom(decoded: StateV2, q: Project) {
    && SettledProject(q) && q.namespace == decoded.namespace
    && WorkspacesMigrated(decoded.workspaces, q.workspaces, q.generations.Keys)
    && IdsRepaired(DecodedV2(decoded).workspaces, q.workspaces)
    && TablesSurvive(decoded.chatTokens, decoded.terminalTokens, decoded.generations, q)
  }

  /**
  Version 2 to current: every workspace, chat and terminal is kept in order with
  its name, directory, environment, agent, messages and launch; a terminal is
  restored exactly when it was running; only invalid and repeated IDs change;
  and of the tables all that survives is kept.
  */
  lemma MigrationKeepsSessions(decoded: StateV2, draws: nat -> Draw, position: nat)
    ensures var m := MigrateV2ToCurrent(decoded, draws, position);
            m.result.Ok? ==> MigratedFrom(decoded, m.result.value)
  {
    MigrateV3IsRepair(MigrateV2ToV3(decoded), draws, position);
    var m := MigrateV2ToCurrent(decoded, draws, position);
    if m.result.Ok? {
      CarriedIsMigrated(decoded, m.result.value.workspaces, m.result.value.generations.Keys);
    }
  }

  lemma CarriedIsMigrated(decoded: StateV2, after: seq<Workspace>, generations: set<u64>)
    requires WorkspacesCarried(DecodedV2(decoded).workspaces, after, generations)
    ensures WorkspacesMigrated(decoded.workspaces, after, generations)
  {
    var before := DecodedV2(decoded).workspaces;
    forall w | 0 <= w < |decoded.workspaces| ensures WorkspaceMigrated(decoded.workspaces[w], after[w], generations) {
      assert WorkspaceCarried(before[w], after[w], generations);
      forall t | 0 <= t < |decoded.workspaces[w].terminals|
        ensures TerminalMigrated(decoded.workspaces[w].terminals[t], after[w].terminals[t])
      {
        assert TerminalCarried(before[w].terminals[t], after[w].terminals[t]);
      }
    }
  }

  /** With consistent tables, a version-2 state keeps every token and every generation it has. */
  lemma MigrationV2KeepsTables(decoded: StateV2, draws: nat -> Draw, position: nat)
    requires ConsistentTables(DecodedV2(decoded)) && ConsistentGenerations(DecodedV2(decoded))
    ensures var m := MigrateV2ToCurrent(decoded, draws, position);
            m.result.Ok? ==>
              && Extends(decoded.chatTokens, m.result.value.chatTokens)
              && Extends(decoded.terminalTokens, m.result.value.terminalTokens)
              && m.result.value.generations == decoded.generations
  {
    RepairKeepsTokens(DecodedV2(decoded), draws, position);
    RepairKeepsGenerations(DecodedV2(decoded), draws, position);
  }

  /** Version 1 goes through the same chain as version 2 with a namespace of its own and empty tables. */
  lemma MigrationV1KeepsSessions(decoded: StateV1, draws: nat -> Draw, position: nat)
    ensures var m := MigrateV1ToCurrent(decoded, draws, position);
            m.result.Ok? ==>
              MigratedFrom(StateV2(m.result.value.namespace, map[], map[], map[], decoded.nextWorkspace,
                                   decoded.nextChat, decoded.nextTerminal, decoded.workspaces), m.result.value)
  {
    var namespace := Mint(draws, position, {}, MAX_ATTEMPTS);
    if namespace.identity.Some? {
      MigrationKeepsSessions(
        StateV2(namespace.identity.value, map[], map[], map[],
                decoded.nextWorkspace, decoded.nextChat, decoded.nextTerminal, decoded.workspaces),
        draws, namespace.position);
    }
  }

  /** Consistent version-3 tables survive the migration entry for entry, whatever IDs are repaired beside them. */
  lemma MigrationKeepsTokens(decoded: StateV3, draws: nat -> Draw, position: nat)
    requires ConsistentTables(DecodedV3(decoded))
    ensures var m := MigrateV3ToCurrent(decoded, draws, position);
            m.result.Ok? ==>
              && Extends(decoded.chatTokens, m.result.value.chatTokens)
              && Extends(decoded.terminalTokens, m.result.value.terminalTokens)
  {
    RepairKeepsTokens(DecodedV3(decoded), draws, position);
  }

  /** A consistent version-3 generation table is kept as it is, and idles only chats it does not own. */
  lemma MigrationKeepsGenerations(decoded: StateV3, draws: nat -> Draw, position: nat)
    requires ConsistentGenerations(DecodedV3(decoded))
    ensures var m := MigrateV3ToCurrent(decoded, draws, position);
            m.result.Ok? ==>
              && m.result.value.generations == decoded.generations
              && WorkspacesCarried(DecodedV3(decoded).workspaces, m.result.value.workspaces, decoded.generations.Keys)
  {
    RepairKeepsGenerations(DecodedV3(decoded), draws, position);
  }

  /** Migrating fails only for want of entropy or of IDs: never because the result is not accepted. */
  lemma MigrationIsAccepted(decoded: StateV3, draws: nat -> Draw, position: nat)
    ensures MigrateV3ToCurrent(decoded, draws, position).result != Err(NotCurrent)
  {
    MigrateV3IsRepair(decoded, draws, position);
  }

  lemma MigrationExhaustsExactlyWhen(decoded: StateV3, draws: nat -> Draw, position: nat)
    ensures MigrateV3ToCurrent(decoded, draws, position).result == Err(IdsExhausted)
            <==> |ChatIds(LocalWorkspaces(decoded.workspaces))| > MAX_DURABLE_SESSION_ID
                 || |TerminalIds(LocalWorkspaces(decoded.workspaces))| > MAX_DURABLE_SESSION_ID
                 || |decoded.workspaces| > U64_MAX
  {
    RepairedWorkspacesIs(LocalWorkspaces(decoded.workspaces));
    if RepairedWorkspaces(LocalWorkspaces(decoded.workspaces)).Ok? {
      MigrateV3IsRepair(decoded, draws, position);
    }
  }
}

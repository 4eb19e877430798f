/**
Repairing a decoded project: IDs and allocator hints (`normalize_next_ids`),
identity tables (`normalize_session_identities`) and statuses no live agent
owns, as functions of the project and the entropy stream.
*/
module ProjectNormalization {
  import opened Primitives
  import opened IdAllocator
  import opened IdRepair
  import opened SessionIdentities
  import opened ProjectModel

  datatype IdAllocationError = WorkspaceExhausted | ChatExhausted | TerminalExhausted | IdentityError

  // ---- IDs and hints --------------------------------------------------------

  /** Every workspace, chat and terminal ID repaired, in that order. */
  function RepairedWorkspaces(ws: seq<Workspace>): Result<seq<Workspace>, IdAllocationError> {
    if |ChatIds(ws)| > MAX_DURABLE_SESSION_ID then Err(ChatExhausted)
    else if |TerminalIds(ws)| > MAX_DURABLE_SESSION_ID then Err(TerminalExhausted)
    else
      var workspaceIds := Repaired(WorkspaceIds(ws), U64_MAX);
      if workspaceIds.None? then Err(WorkspaceExhausted)
      else
        RepairKeepsFirstHolders(WorkspaceIds(ws), U64_MAX);
        RepairKeepsFirstHolders(ChatIds(ws), MAX_DURABLE_SESSION_ID);
        RepairKeepsFirstHolders(TerminalIds(ws), MAX_DURABLE_SESSION_ID);
        var first := WithWorkspaceIds(ws, workspaceIds.value);
        var second := WithChatIds(first, Repaired(ChatIds(first), MAX_DURABLE_SESSION_ID).value);
        Ok(WithTerminalIds(second, Repaired(TerminalIds(second), MAX_DURABLE_SESSION_ID).value))
  }

  function WithHints(p: Project): Project {
    p.(nextWorkspace := NormalizedHint(p.nextWorkspace, Elements(WorkspaceIds(p.workspaces)), U64_MAX),
       nextChat := NormalizedHint(p.nextChat, Elements(ChatIds(p.workspaces)), MAX_DURABLE_SESSION_ID),
       nextTerminal := NormalizedHint(p.nextTerminal, Elements(TerminalIds(p.workspaces)), MAX_DURABLE_SESSION_ID))
  }

  function NormalizeNextIds(p: Project): Result<Project, IdAllocationError> {
    var ws := RepairedWorkspaces(p.workspaces);
    if ws.Err? then Err(ws.error) else Ok(WithHints(p.(workspaces := ws.value)))
  }

  ghost predicate HintsStable(p: Project) {
    && StableHint(p.nextWorkspace, Elements(WorkspaceIds(p.workspaces)), U64_MAX)
    && StableHint(p.nextChat, Elements(ChatIds(p.workspaces)), MAX_DURABLE_SESSION_ID)
    && StableHint(p.nextTerminal, Elements(TerminalIds(p.workspaces)), MAX_DURABLE_SESSION_ID)
  }

  /** The repaired list against the original one: who keeps an ID, and what the others get. */
  ghost predicate RepairOf(before: seq<u64>, after: seq<u64>, max: u64) {
    && |after| == |before| && GoodIds(after, max)
    && (forall i :: 0 <= i < |before| && Keeps(before, max, i) ==> after[i] == before[i])
    && (forall i :: 0 <= i < |before| && !Keeps(before, max, i) ==> after[i] !in before)
  }

  ghost predicate WorkspacesRepaired(ws: seq<Workspace>, q: seq<Workspace>) {
    && RepairOf(WorkspaceIds(ws), WorkspaceIds(q), U64_MAX)
    && RepairOf(ChatIds(ws), ChatIds(q), MAX_DURABLE_SESSION_ID)
    && RepairOf(TerminalIds(ws), TerminalIds(q), MAX_DURABLE_SESSION_ID)
    && WithoutIds(q) == WithoutIds(ws)
  }

  /**
  ID repair fails only when there are more items than IDs for them. Otherwise
  every list ends valid and distinct, first holders of valid IDs keep them, a
  renumbered item takes an ID found nowhere in the file, and nothing but IDs
  changes.
  */
  lemma RepairedWorkspacesIs(ws: seq<Workspace>)
    ensures RepairedWorkspaces(ws).Ok?
            <==> |ChatIds(ws)| <= MAX_DURABLE_SESSION_ID && |TerminalIds(ws)| <= MAX_DURABLE_SESSION_ID
                 && |ws| <= U64_MAX
    ensures RepairedWorkspaces(ws).Ok? ==> WorkspacesRepaired(ws, RepairedWorkspaces(ws).value)
  {
    RepairKeepsFirstHolders(WorkspaceIds(ws), U64_MAX);
    if RepairedWorkspaces(ws).Ok? {
      RepairKeepsFirstHolders(ChatIds(ws), MAX_DURABLE_SESSION_ID);
      RepairKeepsFirstHolders(TerminalIds(ws), MAX_DURABLE_SESSION_ID);
      var w := Repaired(WorkspaceIds(ws), U64_MAX).value;
      var c := Repaired(ChatIds(ws), MAX_DURABLE_SESSION_ID).value;
      var t := Repaired(TerminalIds(ws), MAX_DURABLE_SESSION_ID).value;
      var first := WithWorkspaceIds(ws, w);
      var second := WithChatIds(first, c);
      RenumberingKeepsTheRest(ws, w, c, t);
      RenumberingKeepsTheRest(first, w, c, t);
      RenumberingKeepsTheRest(second, w, c, t);
    }
  }

  /** Every valid ID of the list is still held by someone. */
  lemma ValidIdsStay(before: seq<u64>, after: seq<u64>, max: u64)
    requires RepairOf(before, after, max)
    ensures ValidIds(before, max) <= Elements(after)
  {
    forall id | id in ValidIds(before, max) ensures id in after {
      var i := FirstHolder(before, id);
      assert Keeps(before, max, i) && after[i] == id;
    }
  }

  function FirstHolder(ids: seq<u64>, id: u64): (i: nat)
    requires id in ids
    ensures i < |ids| && ids[i] == id && id !in ids[..i]
  {
    if ids[0] == id then 0
    else
      var i := 1 + FirstHolder(ids[1..], id);
      assert ids[..i] == [ids[0]] + ids[1..][..i - 1];
      i
  }

  /** Repaired IDs need no repair. */
  lemma GoodWorkspacesStay(ws: seq<Workspace>)
    requires GoodIds(WorkspaceIds(ws), U64_MAX)
    requires GoodIds(ChatIds(ws), MAX_DURABLE_SESSION_ID) && GoodIds(TerminalIds(ws), MAX_DURABLE_SESSION_ID)
    ensures RepairedWorkspaces(ws) == Ok(ws)
  {
    GoodIdsFit(WorkspaceIds(ws), U64_MAX);
    GoodIdsFit(ChatIds(ws), MAX_DURABLE_SESSION_ID);
    GoodIdsFit(TerminalIds(ws), MAX_DURABLE_SESSION_ID);
    RepairSettles(WorkspaceIds(ws), U64_MAX);
    RepairSettles(ChatIds(ws), MAX_DURABLE_SESSION_ID);
    RepairSettles(TerminalIds(ws), MAX_DURABLE_SESSION_ID);
    WithSameIds(ws);
  }

  lemma GoodIdsFit(ids: seq<u64>, max: u64)
    requires GoodIds(ids, max)
    ensures |ids| <= max
  {
    ElementsBound(ids);
    SubsetSize(Elements(ids), IdRange(max));
  }

  lemma WithHintsSettles(p: Project)
    ensures HintsStable(WithHints(p))
    ensures HintsStable(p) ==> WithHints(p) == p
  {
    NormalizedHintIsStable(p.nextWorkspace, Elements(WorkspaceIds(p.workspaces)), U64_MAX);
    NormalizedHintIsStable(p.nextChat, Elements(ChatIds(p.workspaces)), MAX_DURABLE_SESSION_ID);
    NormalizedHintIsStable(p.nextTerminal, Elements(TerminalIds(p.workspaces)), MAX_DURABLE_SESSION_ID);
    StableHintIffFixed(p.nextWorkspace, Elements(WorkspaceIds(p.workspaces)), U64_MAX);
    StableHintIffFixed(p.nextChat, Elements(ChatIds(p.workspaces)), MAX_DURABLE_SESSION_ID);
    StableHintIffFixed(p.nextTerminal, Elements(TerminalIds(p.workspaces)), MAX_DURABLE_SESSION_ID);
  }

  lemma NormalizeNextIdsSettles(p: Project)
    ensures NormalizeNextIds(p).Ok? ==>
              var q := NormalizeNextIds(p).value;
              CoherentIds(q) && HintsStable(q) && NormalizeNextIds(q) == Ok(q)
    ensures CoherentIds(p) && HintsStable(p) ==> NormalizeNextIds(p) == Ok(p)
  {
    RepairedWorkspacesIs(p.workspaces);
    if NormalizeNextIds(p).Ok? {
      var q := NormalizeNextIds(p).value;
      GoodWorkspacesStay(q.workspaces);
      WithHintsSettles(p.(workspaces := q.workspaces));
      WithHintsSettles(q);
    }
    if CoherentIds(p) && HintsStable(p) {
      GoodWorkspacesStay(p.workspaces);
      WithHintsSettles(p);
    }
  }

  // ---- identity tables ------------------------------------------------------

  datatype Normalized = Normalized(project: Option<Project>, position: nat)

  /** The tables cut down to live sessions and distinct tokens. */
  function RetainedTables(p: Project): Project {
    var chatIds := Elements(ChatIds(p.workspaces));
    var chats := Retain(p.chatTokens, chatIds, {});
    var terminals := Retain(p.terminalTokens, Elements(TerminalIds(p.workspaces)), chats.seen);
    p.(chatTokens := chats.table, terminalTokens := terminals.table,
       generations := Retain(p.generations, chatIds, {}).table)
  }

  datatype FilledPair = FilledPair(tables: Option<(Table, Table)>, position: nat)

  /** Missing chat tokens first, then missing terminal tokens, each avoiding both tables. */
  function FillBoth(chatIds: set<u64>, terminalIds: set<u64>, chats: Table, terminals: Table,
                    draws: nat -> Draw, position: nat): FilledPair {
    var first := FillFrom(Ascending(chatIds), chats, terminals.Values, draws, position);
    if first.table.None? then FilledPair(None, first.position)
    else
      var second := FillFrom(Ascending(terminalIds), terminals, first.table.value.Values, draws, first.position);
      if second.table.None? then FilledPair(None, second.position)
      else FilledPair(Some((first.table.value, second.table.value)), second.position)
  }

  function FilledTables(p: Project, draws: nat -> Draw, position: nat): Normalized {
    var filled := FillBoth(Elements(ChatIds(p.workspaces)), Elements(TerminalIds(p.workspaces)),
                           p.chatTokens, p.terminalTokens, draws, position);
    if filled.tables.None? then Normalized(None, filled.position)
    else
      Normalized(Some(p.(chatTokens := filled.tables.value.0, terminalTokens := filled.tables.value.1)),
                 filled.position)
  }

  function NormalizeIdentities(p: Project, draws: nat -> Draw, position: nat): Normalized {
    FilledTables(RetainedTables(p), draws, position)
  }

  /** Every entry of one table is an entry of the other. */
  ghost predicate Extends(small: Table, big: Table) {
    forall k :: k in small ==> k in big && big[k] == small[k]
  }

  lemma RetainedTablesClean(p: Project)
    ensures var r := RetainedTables(p);
            && r == p.(chatTokens := r.chatTokens, terminalTokens := r.terminalTokens, generations := r.generations)
            && r.chatTokens.Keys <= Elements(ChatIds(p.workspaces))
            && r.terminalTokens.Keys <= Elements(TerminalIds(p.workspaces))
            && Injective(r.chatTokens) && Apart(r.terminalTokens, r.chatTokens.Values)
            && CoherentGenerations(r)
            && Extends(r.chatTokens, p.chatTokens) && Extends(r.terminalTokens, p.terminalTokens)
  {
    var chatIds := Elements(ChatIds(p.workspaces));
    RetainIsClean(p.chatTokens, chatIds, {});
    RetainIsClean(p.terminalTokens, Elements(TerminalIds(p.workspaces)), Retain(p.chatTokens, chatIds, {}).seen);
    RetainIsClean(p.generations, chatIds, {});
  }

  lemma ApartSymmetric(a: Table, b: Table)
    requires Injective(a) && Apart(b, a.Values)
    ensures Apart(a, b.Values)
  {
  }

  lemma AscendingElements(ids: set<u64>)
    ensures Elements(Ascending(ids)) == ids
  {
    AscendingMembers(ids);
  }

  lemma FillBothCovers(chatIds: set<u64>, terminalIds: set<u64>, chats: Table, terminals: Table,
                       draws: nat -> Draw, position: nat)
    requires chats.Keys <= chatIds && terminals.Keys <= terminalIds
    requires Injective(chats) && Apart(terminals, chats.Values)
    ensures var r := FillBoth(chatIds, terminalIds, chats, terminals, draws, position).tables;
            r.Some? ==>
              && r.value.0.Keys == chatIds && r.value.1.Keys == terminalIds
              && Injective(r.value.0) && Apart(r.value.1, r.value.0.Values)
              && Extends(chats, r.value.0) && Extends(terminals, r.value.1)
  {
    AscendingElements(chatIds);
    AscendingElements(terminalIds);
    ApartSymmetric(chats, terminals);
    FillCovers(Ascending(chatIds), chats, terminals.Values, draws, position);
    var first := FillFrom(Ascending(chatIds), chats, terminals.Values, draws, position);
    if first.table.Some? {
      ApartSymmetric(terminals, first.table.value);
      FillCovers(Ascending(terminalIds), terminals, first.table.value.Values, draws, first.position);
    }
  }

  lemma FilledTablesCover(p: Project, draws: nat -> Draw, position: nat)
    requires p.chatTokens.Keys <= Elements(ChatIds(p.workspaces))
    requires p.terminalTokens.Keys <= Elements(TerminalIds(p.workspaces))
    requires Injective(p.chatTokens) && Apart(p.terminalTokens, p.chatTokens.Values)
    ensures var r := FilledTables(p, draws, position).project;
            r.Some? ==>
              && CoherentTables(r.value)
              && r.value == p.(chatTokens := r.value.chatTokens, terminalTokens := r.value.terminalTokens)
              && Extends(p.chatTokens, r.value.chatTokens) && Extends(p.terminalTokens, r.value.terminalTokens)
  {
    FillBothCovers(Elements(ChatIds(p.workspaces)), Elements(TerminalIds(p.workspaces)),
                   p.chatTokens, p.terminalTokens, draws, position);
  }

  lemma FillBothNothing(chats: Table, terminals: Table, draws: nat -> Draw, position: nat)
    ensures FillBoth(chats.Keys, terminals.Keys, chats, terminals, draws, position)
            == FilledPair(Some((chats, terminals)), position)
  {
    AscendingMembers(chats.Keys);
    AscendingMembers(terminals.Keys);
    FillNothing(Ascending(chats.Keys), chats, terminals.Values, draws, position);
    FillNothing(Ascending(terminals.Keys), terminals, chats.Values, draws, position);
  }

  lemma RetainedTablesStay(p: Project)
    requires CoherentTables(p) && CoherentGenerations(p)
    ensures RetainedTables(p) == p
  {
    var chatIds := Elements(ChatIds(p.workspaces));
    RetainAll(p.chatTokens, chatIds, {});
    assert Retain(p.chatTokens, chatIds, {}).seen == p.chatTokens.Values;
    RetainAll(p.terminalTokens, Elements(TerminalIds(p.workspaces)), p.chatTokens.Values);
    RetainAll(p.generations, chatIds, {});
  }

  /** A coherent project is left exactly as it is, and no entropy is drawn. */
  lemma CoherentIdentitiesStay(p: Project, draws: nat -> Draw, position: nat)
    requires Coherent(p)
    ensures NormalizeIdentities(p, draws, position) == Normalized(Some(p), position)
  {
    RetainedTablesStay(p);
    FillBothNothing(p.chatTokens, p.terminalTokens, draws, position);
  }

  /** Tokens of a table that is already consistent survive, whatever else is repaired. */
  lemma ConsistentTokensSurvive(p: Project, draws: nat -> Draw, position: nat)
    requires p.chatTokens.Keys <= Elements(ChatIds(p.workspaces))
    requires p.terminalTokens.Keys <= Elements(TerminalIds(p.workspaces))
    requires Injective(p.chatTokens) && Apart(p.terminalTokens, p.chatTokens.Values)
    ensures var r := NormalizeIdentities(p, draws, position).project;
            r.Some? ==> Extends(p.chatTokens, r.value.chatTokens) && Extends(p.terminalTokens, r.value.terminalTokens)
  {
    RetainAll(p.chatTokens, Elements(ChatIds(p.workspaces)), {});
    assert Retain(p.chatTokens, Elements(ChatIds(p.workspaces)), {}).seen == p.chatTokens.Values;
    RetainAll(p.terminalTokens, Elements(TerminalIds(p.workspaces)), p.chatTokens.Values);
    FilledTablesCover(RetainedTables(p), draws, position);
  }

  /**
  What becomes of decoded tables in a project `q` repaired from them. A generation
  is there exactly when it survives among the chats there now. So does every token
  that survives, terminal tokens giving way to those of chats.
  */
  ghost predicate TablesSurvive(chatTokens: Table, terminalTokens: Table, generations: Table, q: Project) {
    var chats, terminals := Elements(ChatIds(q.workspaces)), Elements(TerminalIds(q.workspaces));
    && Extends(q.generations, generations)
    && (forall k :: k in q.generations <==> Survives(generations, chats, {}, k))
    && (forall k :: Survives(chatTokens, chats, {}, k) ==> k in q.chatTokens && q.chatTokens[k] == chatTokens[k])
    && (forall k :: Survives(terminalTokens, terminals, SurvivingTokens(chatTokens, chats), k) ==>
          k in q.terminalTokens && q.terminalTokens[k] == terminalTokens[k])
  }

  lemma RepairedTablesSurvive(p: Project, draws: nat -> Draw, position: nat)
    ensures var r := NormalizeIdentities(p, draws, position).project;
            r.Some? ==> TablesSurvive(p.chatTokens, p.terminalTokens, p.generations, r.value)
  {
    var chats, terminals := Elements(ChatIds(p.workspaces)), Elements(TerminalIds(p.workspaces));
    RetainKeepsSurvivors(p.chatTokens, chats, {});
    RetainKeepsSurvivors(p.generations, chats, {});
    RetainedTokensAreSurviving(p.chatTokens, chats);
    RetainIsClean(p.chatTokens, chats, {});
    RetainIsClean(p.generations, chats, {});
    assert Retain(p.chatTokens, chats, {}).seen == SurvivingTokens(p.chatTokens, chats);
    RetainKeepsSurvivors(p.terminalTokens, terminals, SurvivingTokens(p.chatTokens, chats));
    RetainIsClean(p.terminalTokens, terminals, SurvivingTokens(p.chatTokens, chats));
    RetainedTablesClean(p);
    FilledTablesCover(RetainedTables(p), draws, position);
  }

  /** The table repair changes the project whenever it drops or mints anything. */
  lemma UnchangedMeansKept(p: Project, draws: nat -> Draw, position: nat)
    ensures NormalizeIdentities(p, draws, position).project == Some(p) ==> RetainedTables(p) == p
  {
    RetainedTablesClean(p);
    FilledTablesCover(RetainedTables(p), draws, position);
    if NormalizeIdentities(p, draws, position).project == Some(p) {
      RetainedTablesStay(p);
    }
  }

  /**
  The repair as a whole: from any decoded project, if both passes succeed the
  result is accepted by validation, and running both again changes nothing and
  draws nothing.
  */
  lemma NormalizationSettles(p: Project, draws: nat -> Draw, position: nat)
    ensures NormalizeNextIds(p).Ok? ==>
              var second := NormalizeIdentities(NormalizeNextIds(p).value, draws, position);
              second.project.Some? ==>
                var q := second.project.value;
                && Validate(q).None? && HintsStable(q)
                && NormalizeNextIds(q) == Ok(q)
                && NormalizeIdentities(q, draws, second.position) == second
                && q.workspaces == NormalizeNextIds(p).value.workspaces
  {
    NormalizeNextIdsSettles(p);
    if NormalizeNextIds(p).Ok? {
      var first := NormalizeNextIds(p).value;
      var second := NormalizeIdentities(first, draws, position);
      RetainedTablesClean(first);
      FilledTablesCover(RetainedTables(first), draws, position);
      if second.project.Some? {
        var q := second.project.value;
        assert Coherent(q) && HintsStable(q);
        ValidateAcceptsCoherent(q);
        NormalizeNextIdsSettles(q);
        CoherentIdentitiesStay(q, draws, second.position);
      }
    }
  }

  // ---- statuses -------------------------------------------------------------

  /** A status only a running agent can justify. */
  predicate NeedsOwner(status: ChatStatus) {
    status == Thinking || status == Waiting
  }

  function SettledChat(chat: ChatSession, active: set<u64>): ChatSession {
    if chat.id !in active && NeedsOwner(chat.status) then chat.(status := Idle) else chat
  }

  function SettledChats(chats: seq<ChatSession>, active: set<u64>): seq<ChatSession> {
    seq(|chats|, i requires 0 <= i < |chats| => SettledChat(chats[i], active))
  }

  function SettledStatuses(ws: seq<Workspace>, active: set<u64>): seq<Workspace> {
    seq(|ws|, i requires 0 <= i < |ws| => ws[i].(chats := SettledChats(ws[i].chats, active)))
  }

  function NormalizeStatuses(p: Project): Project {
    p.(workspaces := SettledStatuses(p.workspaces, p.generations.Keys))
  }

  /** No chat claims to be busy without a generation that owns it. */
  ghost predicate StatusesOwned(p: Project) {
    forall w, c :: 0 <= w < |p.workspaces| && 0 <= c < |p.workspaces[w].chats|
                   && NeedsOwner(p.workspaces[w].chats[c].status)
                   ==> p.workspaces[w].chats[c].id in p.generations
  }

  lemma StatusesSettle(p: Project)
    ensures var q := NormalizeStatuses(p);
            && StatusesOwned(q)
            && WorkspaceIds(q.workspaces) == WorkspaceIds(p.workspaces)
            && ChatIds(q.workspaces) == ChatIds(p.workspaces)
            && TerminalIds(q.workspaces) == TerminalIds(p.workspaces)
    ensures StatusesOwned(p) <==> NormalizeStatuses(p) == p
  {
    var q := NormalizeStatuses(p);
    forall w | 0 <= w < |p.workspaces|
      ensures ChatIdsOf(q.workspaces[w].chats) == ChatIdsOf(p.workspaces[w].chats)
      ensures StatusesOwned(p) ==> q.workspaces[w].chats == p.workspaces[w].chats
    {
      assert forall c :: 0 <= c < |p.workspaces[w].chats| ==>
          q.workspaces[w].chats[c] == SettledChat(p.workspaces[w].chats[c], p.generations.Keys);
    }
    assert ChatIdsPerWorkspace(q.workspaces) == ChatIdsPerWorkspace(p.workspaces);
    assert TerminalIdsPerWorkspace(q.workspaces) == TerminalIdsPerWorkspace(p.workspaces);
    assert WorkspaceIds(q.workspaces) == WorkspaceIds(p.workspaces);
    assert StatusesOwned(p) ==> q.workspaces == p.workspaces;
  }
}

/**
The project as the client holds it: an object whose methods change its vectors,
tables and hints in place, each tied to the function of the old state it
computes.
*/
module ProjectStateObject {
  import opened Primitives
  import opened IdAllocator
  import opened IdRepair
  import opened SessionIdentities
  import opened ProjectModel
  import opened ProjectNormalization
  import opened ProjectOperations

  class ProjectState {
    var version: u32
    const namespace: Identity
    var chatTokens: Table
    var terminalTokens: Table
    var generations: Table
    var nextWorkspace: u64
    var nextChat: u64
    var nextTerminal: u64
    var workspaces: seq<Workspace>

    ghost function Value(): Project
      reads this
    {
      Project(version, namespace, chatTokens, terminalTokens, generations,
              nextWorkspace, nextChat, nextTerminal, workspaces)
    }

    constructor FromDecoded(p: Project)
      ensures Value() == p
    {
      version, namespace := p.version, p.namespace;
      chatTokens, terminalTokens, generations := p.chatTokens, p.terminalTokens, p.generations;
      nextWorkspace, nextChat, nextTerminal := p.nextWorkspace, p.nextChat, p.nextTerminal;
      workspaces := p.workspaces;
    }

    method ToProject() returns (p: Project)
      ensures p == Value()
    {
      p := Project(version, namespace, chatTokens, terminalTokens, generations,
                   nextWorkspace, nextChat, nextTerminal, workspaces);
    }

    // ---- repair -------------------------------------------------------------

    /** Renumber workspaces, then chats, then terminals. */
    method NormalizeExistingIds() returns (error: Option<IdAllocationError>, changed: bool)
      requires |ChatIds(workspaces)| <= MAX_DURABLE_SESSION_ID && |TerminalIds(workspaces)| <= MAX_DURABLE_SESSION_ID
      modifies this`workspaces
      ensures error.None? ==> RepairedWorkspaces(old(workspaces)) == Ok(workspaces)
      ensures error.None? ==> (changed <==> workspaces != old(workspaces))
      ensures error.Some? ==> RepairedWorkspaces(old(workspaces)) == Err(error.value)
      ensures error.Some? ==> workspaces == old(workspaces)
    {
      ghost var before := workspaces;
      WithSameIds(before);
      RepairKeepsFirstHolders(WorkspaceIds(workspaces), U64_MAX);
      RepairKeepsFirstHolders(ChatIds(workspaces), MAX_DURABLE_SESSION_ID);
      RepairKeepsFirstHolders(TerminalIds(workspaces), MAX_DURABLE_SESSION_ID);
      var workspaceIds, workspaceChanged := RepairIds(WorkspaceIds(workspaces), U64_MAX);
      if workspaceIds.None? { return Some(WorkspaceExhausted), false; }
      workspaces := WithWorkspaceIds(workspaces, workspaceIds.value);
      var chatIds, chatChanged := RepairIds(ChatIds(workspaces), MAX_DURABLE_SESSION_ID);
      workspaces := WithChatIds(workspaces, chatIds.value);
      var terminalIds, terminalChanged := RepairIds(TerminalIds(workspaces), MAX_DURABLE_SESSION_ID);
      workspaces := WithTerminalIds(workspaces, terminalIds.value);
      error, changed := None, workspaceChanged || chatChanged || terminalChanged;
    }

    /** The next hint for one list of IDs, and whether it moved. */
    method NormalizeHint(current: u64, ids: seq<u64>, max: u64) returns (hint: u64, moved: bool)
      ensures hint == NormalizedHint(current, Elements(ids), max) && (moved <==> hint != current)
    {
      hint := NormalizedHint(current, Elements(ids), max);
      moved := hint != current;
    }

    method NormalizeHints() returns (changed: bool)
      modifies this`nextWorkspace, this`nextChat, this`nextTerminal
      ensures Value() == WithHints(old(Value())) && (changed <==> Value() != old(Value()))
    {
      var workspace, movedWorkspace := NormalizeHint(nextWorkspace, WorkspaceIds(workspaces), U64_MAX);
      var chat, movedChat := NormalizeHint(nextChat, ChatIds(workspaces), MAX_DURABLE_SESSION_ID);
      var terminal, movedTerminal := NormalizeHint(nextTerminal, TerminalIds(workspaces), MAX_DURABLE_SESSION_ID);
      ghost var hinted := WithHints(Value());
      assert hinted.nextWorkspace == workspace && hinted.nextChat == chat && hinted.nextTerminal == terminal;
      nextWorkspace, nextChat, nextTerminal := workspace, chat, terminal;
      changed := movedWorkspace || movedChat || movedTerminal;
    }

    method NormalizeNextIds() returns (error: Option<IdAllocationError>, changed: bool)
      modifies this
      ensures var r := ProjectNormalization.NormalizeNextIds(old(Value()));
              if r.Ok? then error == None && Value() == r.value && (changed <==> r.value != old(Value()))
              else error == Some(r.error) && Value() == old(Value())
    {
      if |ChatIds(workspaces)| > MAX_DURABLE_SESSION_ID { return Some(ChatExhausted), false; }
      if |TerminalIds(workspaces)| > MAX_DURABLE_SESSION_ID { return Some(TerminalExhausted), false; }
      error, changed := NormalizeExistingIds();
      if error.Some? { return error, false; }
      var moved := NormalizeHints();
      changed := changed || moved;
    }

    /** One table cut down in place, and whether that dropped anything. */
    static method RetainTable(table: Table, live: set<u64>, seen: set<Identity>)
      returns (kept: Table, after: set<Identity>, dropped: bool)
      ensures Retained(kept, after) == Retain(table, live, seen) && (dropped <==> kept != table)
    {
      RetainIsClean(table, live, seen);
      kept, after := RetainLive(table, live, seen);
      SameSizeSameTable(kept, table);
      dropped := |kept| != |table|;
    }

    method RetainTables() returns (changed: bool)
      modifies this
      ensures Value() == RetainedTables(old(Value()))
      ensures changed <==> Value() != old(Value())
    {
      var chatIds, terminalIds := Elements(ChatIds(workspaces)), Elements(TerminalIds(workspaces));
      var seen, unused, chatsDropped, terminalsDropped, generationsDropped;
      chatTokens, seen, chatsDropped := RetainTable(chatTokens, chatIds, {});
      terminalTokens, unused, terminalsDropped := RetainTable(terminalTokens, terminalIds, seen);
      generations, unused, generationsDropped := RetainTable(generations, chatIds, {});
      changed := chatsDropped || terminalsDropped || generationsDropped;
    }

    /** On an entropy failure the tables are partly repaired; the caller drops the state. */
    method NormalizeSessionIdentities(source: IdentitySource) returns (ok: bool, changed: bool)
      modifies this, source
      ensures var r := NormalizeIdentities(old(Value()), source.draws, old(source.position));
              && source.position == r.position && (ok <==> r.project.Some?)
              && (ok ==> Value() == r.project.value)
      ensures ok ==> (changed <==> Value() != old(Value()))
    {
      ghost var before := Value();
      changed := RetainTables();
      var chats, chatsMinted := FillMissing(Ascending(Elements(ChatIds(workspaces))), chatTokens,
                                            terminalTokens.Values, source);
      if chats.None? { return false, changed; }
      chatTokens := chats.value;
      var terminals, terminalsMinted := FillMissing(Ascending(Elements(TerminalIds(workspaces))), terminalTokens,
                                                    chatTokens.Values, source);
      if terminals.None? { return false, changed; }
      terminalTokens := terminals.value;
      UnchangedMeansKept(before, source.draws, old(source.position));
      ok, changed := true, changed || chatsMinted || terminalsMinted;
    }

    /** Nested loops over every chat: a status no generation owns becomes idle. */
    method NormalizeUnownedAgentStatuses() returns (changed: bool)
      modifies this`workspaces
      ensures Value() == NormalizeStatuses(old(Value()))
      ensures changed <==> workspaces != old(workspaces)
    {
      changed := false;
      var active := generations.Keys;
      for w := 0 to |workspaces|
        invariant |workspaces| == |old(workspaces)|
        invariant forall i :: 0 <= i < w ==>
          workspaces[i] == old(workspaces)[i].(chats := SettledChats(old(workspaces)[i].chats, active))
        invariant forall i :: w <= i < |workspaces| ==> workspaces[i] == old(workspaces)[i]
        invariant changed <==> workspaces != old(workspaces)
      {
        var chats, moved := SettleChats(workspaces[w].chats, active);
        ghost var mid := workspaces;
        workspaces := workspaces[w := workspaces[w].(chats := chats)];
        changed := changed || moved;
        assert mid[w] == old(workspaces)[w];
        assert !moved ==> workspaces == mid;
        assert moved ==> workspaces[w] != old(workspaces)[w];
        assert mid != old(workspaces) ==> workspaces != old(workspaces) by {
          if mid != old(workspaces) {
            var i :| 0 <= i < |mid| && mid[i] != old(workspaces)[i];
            assert i != w && workspaces[i] == mid[i];
          }
        }
      }
      assert workspaces == SettledStatuses(old(workspaces), active);
    }

    static method SettleChats(chats: seq<ChatSession>, active: set<u64>)
      returns (out: seq<ChatSession>, changed: bool)
      ensures out == SettledChats(chats, active) && (changed <==> out != chats)
    {
      out, changed := chats, false;
      for c := 0 to |chats|
        invariant |out| == |chats|
        invariant forall i :: 0 <= i < c ==> out[i] == SettledChat(chats[i], active)
        invariant forall i :: c <= i < |chats| ==> out[i] == chats[i]
        invariant changed <==> exists i :: 0 <= i < c && out[i] != chats[i]
      {
        if out[c].id !in active && (out[c].status == Thinking || out[c].status == Waiting) {
          out := out[c := out[c].(status := Idle)];
          assert out[c] != chats[c];
          changed := true;
        }
      }
      assert out == SettledChats(chats, active);
    }

    // ---- allocation ---------------------------------------------------------

    method AllocateSessionToken(source: IdentitySource) returns (token: Option<Identity>)
      modifies source
      ensures Minted(token, source.position)
              == Mint(source.draws, old(source.position), TokensInUse(Value()), MAX_ATTEMPTS)
    {
      token := GenerateIdentity(source, chatTokens.Values + terminalTokens.Values);
    }

    method PushWorkspace(name: string, cwd: Option<string>, remote: Option<RemoteTarget>)
      returns (outcome: Outcome)
      modifies this
      ensures Applied(Value(), outcome, 0) == DoPushWorkspace(old(Value()), name, cwd, remote, 0)
    {
      var used := Elements(WorkspaceIds(workspaces));
      var after, taken := TakeAvailable(used, nextWorkspace, U64_MAX);
      if taken.None? { return Refused(WorkspaceExhausted); }
      nextWorkspace := taken.value.next;
      var id := taken.value.id;
      workspaces := workspaces + [Workspace(id, name, cwd, remote, map[], [], [])];
      return Completed(Some(id));
    }

    method AddChat(workspace: u64, name: string, status: ChatStatus, agent: AgentKind, source: IdentitySource)
      returns (outcome: Outcome)
      modifies this, source
      ensures Applied(Value(), outcome, source.position)
              == DoAddChat(old(Value()), workspace, name, status, agent, source.draws, old(source.position))
    {
      var w := FindWorkspace(workspaces, workspace);
      if w.None? { return Completed(None); }
      var token := AllocateSessionToken(source);
      if token.None? { return Refused(IdentityError); }
      var used := ValidIds(ChatIds(workspaces), MAX_DURABLE_SESSION_ID);
      var after, taken := TakeAvailable(used, nextChat, MAX_DURABLE_SESSION_ID);
      if taken.None? { return Refused(ChatExhausted); }
      nextChat := taken.value.next;
      var id, home := taken.value.id, workspaces[w.value];
      workspaces := workspaces[w.value := home.(chats := home.chats + [ChatSession(id, name, status, agent, [])])];
      chatTokens := chatTokens[id := token.value];
      return Completed(Some(id));
    }

    method AddTerminal(workspace: u64, name: string, launch: TerminalLaunch, source: IdentitySource)
      returns (outcome: Outcome)
      modifies this, source
      ensures Applied(Value(), outcome, source.position)
              == DoAddTerminal(old(Value()), workspace, name, launch, source.draws, old(source.position))
    {
      var w := FindWorkspace(workspaces, workspace);
      if w.None? { return Completed(None); }
      var token := AllocateSessionToken(source);
      if token.None? { return Refused(IdentityError); }
      var used := ValidIds(TerminalIds(workspaces), MAX_DURABLE_SESSION_ID);
      var after, taken := TakeAvailable(used, nextTerminal, MAX_DURABLE_SESSION_ID);
      if taken.None? { return Refused(TerminalExhausted); }
      nextTerminal := taken.value.next;
      var id, home := taken.value.id, workspaces[w.value];
      var terminals := home.terminals + [TerminalSession(id, name, false, launch)];
      workspaces := workspaces[w.value := home.(terminals := terminals)];
      terminalTokens := terminalTokens[id := token.value];
      return Completed(Some(id));
    }

    // ---- removal ------------------------------------------------------------

    method RemoveWorkspace(workspace: u64) returns (outcome: Outcome)
      modifies this
      ensures Applied(Value(), outcome, 0) == DoRemoveWorkspace(old(Value()), workspace, 0)
    {
      var w := FindWorkspace(workspaces, workspace);
      if w.None? { return Completed(None); }
      var gone := workspaces[w.value];
      workspaces := workspaces[..w.value] + workspaces[w.value + 1..];
      chatTokens := DropSessions(chatTokens, ChatIdsOf(gone.chats));
      generations := DropSessions(generations, ChatIdsOf(gone.chats));
      terminalTokens := DropSessions(terminalTokens, TerminalIdsOf(gone.terminals));
      return Completed(Some(workspace));
    }

    static method DropSessions(table: Table, ids: seq<u64>) returns (left: Table)
      ensures left == table - Elements(ids)
    {
      left := table;
      for i := 0 to |ids|
        invariant left == table - Elements(ids[..i])
      {
        assert ids[..i + 1] == ids[..i] + [ids[i]];
        left := left - {ids[i]};
      }
      assert ids[..|ids|] == ids;
    }

    method RemoveChat(workspace: u64, chat: u64) returns (outcome: Outcome)
      modifies this
      ensures Applied(Value(), outcome, 0) == DoRemoveChat(old(Value()), workspace, chat, 0)
    {
      var w := FindWorkspace(workspaces, workspace);
      if w.None? { return Completed(None); }
      var home := workspaces[w.value];
      var c := FindId(ChatIdsOf(home.chats), chat);
      if c.None? { return Completed(None); }
      workspaces := workspaces[w.value := home.(chats := Without(home.chats, c.value))];
      chatTokens, generations := chatTokens - {chat}, generations - {chat};
      return Completed(Some(chat));
    }

    method RemoveTerminal(workspace: u64, terminal: u64) returns (outcome: Outcome)
      modifies this
      ensures Applied(Value(), outcome, 0) == DoRemoveTerminal(old(Value()), workspace, terminal, 0)
    {
      var w := FindWorkspace(workspaces, workspace);
      if w.None? { return Completed(None); }
      var home := workspaces[w.value];
      var t := FindId(TerminalIdsOf(home.terminals), terminal);
      if t.None? { return Completed(None); }
      workspaces := workspaces[w.value := home.(terminals := Without(home.terminals, t.value))];
      terminalTokens := terminalTokens - {terminal};
      return Completed(Some(terminal));
    }

    // ---- generations --------------------------------------------------------

    method BeginAgentGeneration(chat: u64, source: IdentitySource) returns (outcome: Outcome)
      modifies this, source
      ensures Applied(Value(), outcome, source.position)
              == DoBeginGeneration(old(Value()), chat, source.draws, old(source.position))
    {
      if chat !in ChatIds(workspaces) { return Completed(None); }
      var generation := GenerateIdentity(source, generations.Values);
      if generation.None? { return Refused(IdentityError); }
      generations := generations[chat := generation.value];
      return Completed(Some(chat));
    }

    method ClearAgentGeneration(chat: u64, generation: Identity) returns (cleared: bool)
      modifies this
      ensures Applied(Value(), Completed(if cleared then Some(chat) else None), 0)
              == DoClearGeneration(old(Value()), chat, generation, 0)
    {
      if chat !in generations || generations[chat] != generation { return false; }
      generations := generations - {chat};
      return true;
    }
  }

  lemma SameSizeSameTable(small: Table, big: Table)
    requires small.Keys <= big.Keys && forall k :: k in small ==> small[k] == big[k]
    ensures |small| <= |big|
    ensures |small| == |big| <==> small == big
  {
    assert |small| == |small.Keys| && |big| == |big.Keys|;
    SubsetSize(small.Keys, big.Keys);
  }
}

/** What one call undoes: removing what was just added, and clearing a generation just begun. */
module ProjectRoundTrips {
  import opened Primitives
  import opened IdAllocator
  import opened IdRepair
  import opened SessionIdentities
  import opened ProjectModel
  import opened ProjectNormalization
  import opened ProjectOperations

  lemma {:induction false} FindWorkspaceUpdated(ws: seq<Workspace>, id: u64, w: Workspace)
    requires FindWorkspace(ws, id).Some? && w.id == id
    ensures FindWorkspace(ws[FindWorkspace(ws, id).value := w], id) == FindWorkspace(ws, id)
    decreases |ws|
  {
    var i := FindWorkspace(ws, id).value;
    if i > 0 {
      FindWorkspaceUpdated(ws[1..], id, w);
      assert ws[i := w][1..] == ws[1..][i - 1 := w];
    }
  }

  lemma {:induction false} FindWorkspacePushed(ws: seq<Workspace>, w: Workspace)
    requires w.id !in WorkspaceIds(ws)
    ensures FindWorkspace(ws + [w], w.id) == Some(|ws|)
    decreases |ws|
  {
    if ws == [] {
      assert ws + [w] == [w];
    } else {
      assert WorkspaceIds(ws)[0] == ws[0].id && WorkspaceIds(ws)[1..] == WorkspaceIds(ws[1..]);
      assert (ws + [w])[1..] == ws[1..] + [w];
      FindWorkspacePushed(ws[1..], w);
    }
  }

  lemma {:induction false} FindIdPushed(ids: seq<u64>, id: u64)
    requires id !in ids
    ensures FindId(ids + [id], id) == Some(|ids|)
    decreases |ids|
  {
    if ids == [] {
      assert ids + [id] == [id];
    } else {
      assert (ids + [id])[1..] == ids[1..] + [id];
      FindIdPushed(ids[1..], id);
    }
  }

  lemma WithoutLast<T>(s: seq<T>, x: T)
    ensures Without(s + [x], |s|) == s
  {
  }

  lemma UpdateTwice<T>(s: seq<T>, i: nat, x: T)
    requires i < |s|
    ensures s[i := x][i := s[i]] == s
  {
  }

  lemma RemoveAdded(t: Table, id: u64, token: Identity)
    requires id !in t
    ensures t[id := token] - {id} == t && t - {id} == t
  {
  }

  /** An ID of one workspace's chats is an ID of the project. */
  lemma ChatIdIsListed(ws: seq<Workspace>, w: nat, id: u64)
    requires w < |ws| && id in ChatIdsOf(ws[w].chats)
    ensures id in ChatIds(ws)
  {
    assert ChatIdsPerWorkspace(ws)[w] == ChatIdsOf(ws[w].chats);
    PartIsListed(ChatIdsPerWorkspace(ws), w, id);
  }

  lemma TerminalIdIsListed(ws: seq<Workspace>, w: nat, id: u64)
    requires w < |ws| && id in TerminalIdsOf(ws[w].terminals)
    ensures id in TerminalIds(ws)
  {
    assert TerminalIdsPerWorkspace(ws)[w] == TerminalIdsOf(ws[w].terminals);
    PartIsListed(TerminalIdsPerWorkspace(ws), w, id);
  }

  lemma {:induction false} PartIsListed(parts: seq<seq<u64>>, w: nat, id: u64)
    requires w < |parts| && id in parts[w]
    ensures id in Concat(parts)
    decreases |parts|
  {
    if w > 0 {
      PartIsListed(parts[1..], w - 1, id);
    }
  }

  /** Removing the last chat of a workspace, when no earlier one there has its ID. */
  lemma RemoveLastChat(q: Project, workspace: u64, w: nat, chats: seq<ChatSession>, chat: ChatSession, position: nat)
    requires FindWorkspace(q.workspaces, workspace) == Some(w) && q.workspaces[w].chats == chats + [chat]
    requires chat.id !in ChatIdsOf(chats)
    ensures DoRemoveChat(q, workspace, chat.id, position).project
            == q.(workspaces := q.workspaces[w := q.workspaces[w].(chats := chats)],
                  chatTokens := q.chatTokens - {chat.id}, generations := q.generations - {chat.id})
  {
    assert ChatIdsOf(chats + [chat]) == ChatIdsOf(chats) + [chat.id];
    FindIdPushed(ChatIdsOf(chats), chat.id);
    WithoutLast(chats, chat);
  }

  lemma RemoveLastTerminal(q: Project, workspace: u64, w: nat, terminals: seq<TerminalSession>,
                           terminal: TerminalSession, position: nat)
    requires FindWorkspace(q.workspaces, workspace) == Some(w) && q.workspaces[w].terminals == terminals + [terminal]
    requires terminal.id !in TerminalIdsOf(terminals)
    ensures DoRemoveTerminal(q, workspace, terminal.id, position).project
            == q.(workspaces := q.workspaces[w := q.workspaces[w].(terminals := terminals)],
                  terminalTokens := q.terminalTokens - {terminal.id})
  {
    assert TerminalIdsOf(terminals + [terminal]) == TerminalIdsOf(terminals) + [terminal.id];
    FindIdPushed(TerminalIdsOf(terminals), terminal.id);
    WithoutLast(terminals, terminal);
  }

  /** Removing the last workspace, an empty one. */
  lemma RemoveLastWorkspace(q: Project, ws: seq<Workspace>, w: Workspace, position: nat)
    requires q.workspaces == ws + [w] && w.id !in WorkspaceIds(ws) && w.chats == [] && w.terminals == []
    ensures DoRemoveWorkspace(q, w.id, position).project == q.(workspaces := ws)
  {
    FindWorkspacePushed(ws, w);
    WithoutLast(ws, w);
    NothingRemoved(q.chatTokens);
    NothingRemoved(q.generations);
    NothingRemoved(q.terminalTokens);
  }

  lemma FreshChatId(p: Project, w: nat)
    requires Coherent(p) && w < |p.workspaces|
    ensures var taken := TakeAvailableId(ValidIds(ChatIds(p.workspaces), MAX_DURABLE_SESSION_ID), p.nextChat,
                                         MAX_DURABLE_SESSION_ID);
            taken.Some? ==> taken.value.id !in ChatIdsOf(p.workspaces[w].chats)
                            && taken.value.id !in p.chatTokens && taken.value.id !in p.generations
  {
    TakenForList(ChatIds(p.workspaces), p.nextChat);
    forall id | id in ChatIdsOf(p.workspaces[w].chats) ensures id in ChatIds(p.workspaces) {
      ChatIdIsListed(p.workspaces, w, id);
    }
  }

  lemma FreshTerminalId(p: Project, w: nat)
    requires Coherent(p) && w < |p.workspaces|
    ensures var taken := TakeAvailableId(ValidIds(TerminalIds(p.workspaces), MAX_DURABLE_SESSION_ID), p.nextTerminal,
                                         MAX_DURABLE_SESSION_ID);
            taken.Some? ==> taken.value.id !in TerminalIdsOf(p.workspaces[w].terminals)
                            && taken.value.id !in p.terminalTokens
  {
    TakenForList(TerminalIds(p.workspaces), p.nextTerminal);
    forall id | id in TerminalIdsOf(p.workspaces[w].terminals) ensures id in TerminalIds(p.workspaces) {
      TerminalIdIsListed(p.workspaces, w, id);
    }
  }

  /** What is listed last in its workspace is the chat asked for, and removing it leaves only the hint moved. */
  lemma RemovingUndoesAddChat(p: Project, workspace: u64, name: string, status: ChatStatus, agent: AgentKind,
                              draws: nat -> Draw, position: nat)
    requires Coherent(p)
    requires DoAddChat(p, workspace, name, status, agent, draws, position).outcome.Completed?
    ensures var added := DoAddChat(p, workspace, name, status, agent, draws, position);
            added.outcome.id.Some? ==>
              var id, q := added.outcome.id.value, added.project;
              && FindWorkspace(q.workspaces, workspace) == FindWorkspace(p.workspaces, workspace)
              && var chats := q.workspaces[FindWorkspace(q.workspaces, workspace).value].chats;
              chats != [] && chats[|chats| - 1] == ChatSession(id, name, status, agent, [])
              && DoRemoveChat(q, workspace, id, position).project == p.(nextChat := q.nextChat)
  {
    var added := DoAddChat(p, workspace, name, status, agent, draws, position);
    if added.outcome.id.Some? {
      var id, q, w := added.outcome.id.value, added.project, FindWorkspace(p.workspaces, workspace).value;
      var home := p.workspaces[w];
      var chat := ChatSession(id, name, status, agent, []);
      FreshChatId(p, w);
      FindWorkspaceUpdated(p.workspaces, workspace, home.(chats := home.chats + [chat]));
      RemoveLastChat(q, workspace, w, home.chats, chat, position);
      UpdateTwice(p.workspaces, w, home.(chats := home.chats + [chat]));
      RemoveAdded(p.chatTokens, id, q.chatTokens[id]);
      RemoveAdded(p.generations, id, q.chatTokens[id]);
    }
  }

  lemma RemovingUndoesAddTerminal(p: Project, workspace: u64, name: string, launch: TerminalLaunch,
                                  draws: nat -> Draw, position: nat)
    requires Coherent(p)
    requires DoAddTerminal(p, workspace, name, launch, draws, position).outcome.Completed?
    ensures var added := DoAddTerminal(p, workspace, name, launch, draws, position);
            added.outcome.id.Some? ==>
              var id, q := added.outcome.id.value, added.project;
              && FindWorkspace(q.workspaces, workspace) == FindWorkspace(p.workspaces, workspace)
              && var terminals := q.workspaces[FindWorkspace(q.workspaces, workspace).value].terminals;
              terminals != [] && terminals[|terminals| - 1] == TerminalSession(id, name, false, launch)
              && DoRemoveTerminal(q, workspace, id, position).project == p.(nextTerminal := q.nextTerminal)
  {
    var added := DoAddTerminal(p, workspace, name, launch, draws, position);
    if added.outcome.id.Some? {
      var id, q, w := added.outcome.id.value, added.project, FindWorkspace(p.workspaces, workspace).value;
      var home := p.workspaces[w];
      var terminal := TerminalSession(id, name, false, launch);
      FreshTerminalId(p, w);
      FindWorkspaceUpdated(p.workspaces, workspace, home.(terminals := home.terminals + [terminal]));
      RemoveLastTerminal(q, workspace, w, home.terminals, terminal, position);
      UpdateTwice(p.workspaces, w, home.(terminals := home.terminals + [terminal]));
      RemoveAdded(p.terminalTokens, id, q.terminalTokens[id]);
    }
  }

  lemma RemovingUndoesPushWorkspace(p: Project, name: string, cwd: Option<string>, remote: Option<RemoteTarget>,
                                    position: nat)
    requires Coherent(p)
    ensures var pushed := DoPushWorkspace(p, name, cwd, remote, position);
            pushed.outcome.Completed? && pushed.outcome.id.Some? ==>
              DoRemoveWorkspace(pushed.project, pushed.outcome.id.value, position).project
              == p.(nextWorkspace := pushed.project.nextWorkspace)
  {
    var pushed := DoPushWorkspace(p, name, cwd, remote, position);
    if pushed.outcome.Completed? {
      var w := Workspace(pushed.outcome.id.value, name, cwd, remote, map[], [], []);
      TakenIdIsFresh(Elements(WorkspaceIds(p.workspaces)), p.nextWorkspace, U64_MAX);
      RemoveLastWorkspace(pushed.project, p.workspaces, w, position);
    }
  }

  lemma NothingRemoved(t: Table)
    ensures t - Elements([]) == t
  {
    NoElements<u64>();
  }

  /**
  Clearing the generation just begun leaves the chat without one; clearing any
  other does nothing, so a superseded agent cannot clear its successor's.
  */
  lemma OnlyTheCurrentGenerationClears(p: Project, chat: u64, stale: Identity, draws: nat -> Draw, position: nat)
    requires chat in ChatIds(p.workspaces)
    requires DoBeginGeneration(p, chat, draws, position).outcome.Completed?
    ensures var q := DoBeginGeneration(p, chat, draws, position).project;
            && chat in q.generations
            && DoClearGeneration(q, chat, q.generations[chat], position).project
               == p.(generations := p.generations - {chat})
            && (stale in p.generations.Values ==>
                  DoClearGeneration(q, chat, stale, position) == Applied(q, Completed(None), position))
  {
    MintIsNew(draws, position, p.generations.Values, MAX_ATTEMPTS);
    var q := DoBeginGeneration(p, chat, draws, position).project;
    assert q.generations - {chat} == p.generations - {chat};
  }
}

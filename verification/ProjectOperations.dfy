/**
Adding and removing workspaces, chats and terminals, and beginning or clearing
an agent generation, as functions of the project and the entropy stream; and
what every run of them keeps.
*/
module ProjectOperations {
  import opened Primitives
  import opened IdAllocator
  import opened IdRepair
  import opened SessionIdentities
  import opened ProjectModel
  import opened ProjectNormalization

  // ---- the operations -------------------------------------------------------

  datatype Operation =
    | PushWorkspace(name: string, cwd: Option<string>, remote: Option<RemoteTarget>)
    | AddChat(workspace: u64, chatName: string, status: ChatStatus, agent: AgentKind)
    | AddTerminal(workspace: u64, terminalName: string, launch: TerminalLaunch)
    | RemoveWorkspace(workspace: u64)
    | RemoveChat(workspace: u64, chat: u64)
    | RemoveTerminal(workspace: u64, terminal: u64)
    | BeginGeneration(chat: u64)
    | ClearGeneration(chat: u64, generation: Identity)

  /** `Completed(None)` is the source's "nothing there to act on". */
  datatype Outcome = Completed(id: Option<u64>) | Refused(error: IdAllocationError)

  datatype Applied = Applied(project: Project, outcome: Outcome, position: nat)

  /** The first workspace with this ID. */
  function FindWorkspace(ws: seq<Workspace>, id: u64): (r: Option<nat>)
    ensures r.Some? ==> r.value < |ws| && ws[r.value].id == id
  {
    if ws == [] then None
    else if ws[0].id == id then Some(0)
    else
      var rest := FindWorkspace(ws[1..], id);
      if rest.None? then None else Some(rest.value + 1)
  }

  function FindId(ids: seq<u64>, id: u64): (r: Option<nat>)
    ensures r.Some? ==> r.value < |ids| && ids[r.value] == id
    ensures r.None? <==> id !in ids
  {
    if ids == [] then None
    else if ids[0] == id then Some(0)
    else
      var rest := FindId(ids[1..], id);
      if rest.None? then None else Some(rest.value + 1)
  }

  function Without<T>(s: seq<T>, i: nat): seq<T>
    requires i < |s|
  {
    s[..i] + s[i + 1..]
  }

  function TokensInUse(p: Project): set<Identity> {
    p.chatTokens.Values + p.terminalTokens.Values
  }

  function DoPushWorkspace(p: Project, name: string, cwd: Option<string>, remote: Option<RemoteTarget>,
                           position: nat): Applied {
    var taken := TakeAvailableId(Elements(WorkspaceIds(p.workspaces)), p.nextWorkspace, U64_MAX);
    if taken.None? then Applied(p, Refused(WorkspaceExhausted), position)
    else
      var id := taken.value.id;
      Applied(p.(nextWorkspace := taken.value.next,
                 workspaces := p.workspaces + [Workspace(id, name, cwd, remote, map[], [], [])]),
              Completed(Some(id)), position)
  }

  function DoAddChat(p: Project, workspace: u64, name: string, status: ChatStatus, agent: AgentKind,
                     draws: nat -> Draw, position: nat): Applied {
    var w := FindWorkspace(p.workspaces, workspace);
    if w.None? then Applied(p, Completed(None), position)
    else
      var token := Mint(draws, position, TokensInUse(p), MAX_ATTEMPTS);
      if token.identity.None? then Applied(p, Refused(IdentityError), token.position)
      else
        var used := ValidIds(ChatIds(p.workspaces), MAX_DURABLE_SESSION_ID);
        var taken := TakeAvailableId(used, p.nextChat, MAX_DURABLE_SESSION_ID);
        if taken.None? then Applied(p, Refused(ChatExhausted), token.position)
        else
          var id, home := taken.value.id, p.workspaces[w.value];
          var chats := home.chats + [ChatSession(id, name, status, agent, [])];
          Applied(p.(nextChat := taken.value.next,
                     workspaces := p.workspaces[w.value := home.(chats := chats)],
                     chatTokens := p.chatTokens[id := token.identity.value]),
                  Completed(Some(id)), token.position)
  }

  function DoAddTerminal(p: Project, workspace: u64, name: string, launch: TerminalLaunch,
                         draws: nat -> Draw, position: nat): Applied {
    var w := FindWorkspace(p.workspaces, workspace);
    if w.None? then Applied(p, Completed(None), position)
    else
      var token := Mint(draws, position, TokensInUse(p), MAX_ATTEMPTS);
      if token.identity.None? then Applied(p, Refused(IdentityError), token.position)
      else
        var used := ValidIds(TerminalIds(p.workspaces), MAX_DURABLE_SESSION_ID);
        var taken := TakeAvailableId(used, p.nextTerminal, MAX_DURABLE_SESSION_ID);
        if taken.None? then Applied(p, Refused(TerminalExhausted), token.position)
        else
          var id, home := taken.value.id, p.workspaces[w.value];
          var terminals := home.terminals + [TerminalSession(id, name, false, launch)];
          Applied(p.(nextTerminal := taken.value.next,
                     workspaces := p.workspaces[w.value := home.(terminals := terminals)],
                     terminalTokens := p.terminalTokens[id := token.identity.value]),
                  Completed(Some(id)), token.position)
  }

  function DoRemoveWorkspace(p: Project, workspace: u64, position: nat): Applied {
    var w := FindWorkspace(p.workspaces, workspace);
    if w.None? then Applied(p, Completed(None), position)
    else
      var gone := p.workspaces[w.value];
      var chats, terminals := Elements(ChatIdsOf(gone.chats)), Elements(TerminalIdsOf(gone.terminals));
      Applied(p.(workspaces := Without(p.workspaces, w.value),
                 chatTokens := p.chatTokens - chats,
                 generations := p.generations - chats,
                 terminalTokens := p.terminalTokens - terminals),
              Completed(Some(workspace)), position)
  }

  function DoRemoveChat(p: Project, workspace: u64, chat: u64, position: nat): Applied {
    var w := FindWorkspace(p.workspaces, workspace);
    if w.None? then Applied(p, Completed(None), position)
    else
      var home := p.workspaces[w.value];
      var c := FindId(ChatIdsOf(home.chats), chat);
      if c.None? then Applied(p, Completed(None), position)
      else
        Applied(p.(workspaces := p.workspaces[w.value := home.(chats := Without(home.chats, c.value))],
                   chatTokens := p.chatTokens - {chat}, generations := p.generations - {chat}),
                Completed(Some(chat)), position)
  }

  function DoRemoveTerminal(p: Project, workspace: u64, terminal: u64, position: nat): Applied {
    var w := FindWorkspace(p.workspaces, workspace);
    if w.None? then Applied(p, Completed(None), position)
    else
      var home := p.workspaces[w.value];
      var t := FindId(TerminalIdsOf(home.terminals), terminal);
      if t.None? then Applied(p, Completed(None), position)
      else
        Applied(p.(workspaces := p.workspaces[w.value := home.(terminals := Without(home.terminals, t.value))],
                   terminalTokens := p.terminalTokens - {terminal}),
                Completed(Some(terminal)), position)
  }

  function DoBeginGeneration(p: Project, chat: u64, draws: nat -> Draw, position: nat): Applied {
    if chat !in ChatIds(p.workspaces) then Applied(p, Completed(None), position)
    else
      var minted := Mint(draws, position, p.generations.Values, MAX_ATTEMPTS);
      if minted.identity.None? then Applied(p, Refused(IdentityError), minted.position)
      else
        Applied(p.(generations := p.generations[chat := minted.identity.value]),
                Completed(Some(chat)), minted.position)
  }

  function DoClearGeneration(p: Project, chat: u64, generation: Identity, position: nat): Applied {
    if chat !in p.generations || p.generations[chat] != generation then Applied(p, Completed(None), position)
    else Applied(p.(generations := p.generations - {chat}), Completed(Some(chat)), position)
  }

  function Apply(p: Project, op: Operation, draws: nat -> Draw, position: nat): Applied {
    match op
    case PushWorkspace(name, cwd, remote) => DoPushWorkspace(p, name, cwd, remote, position)
    case AddChat(workspace, name, status, agent) =>
      DoAddChat(p, workspace, name, status, agent, draws, position)
    case AddTerminal(workspace, name, launch) => DoAddTerminal(p, workspace, name, launch, draws, position)
    case RemoveWorkspace(workspace) => DoRemoveWorkspace(p, workspace, position)
    case RemoveChat(workspace, chat) => DoRemoveChat(p, workspace, chat, position)
    case RemoveTerminal(workspace, terminal) => DoRemoveTerminal(p, workspace, terminal, position)
    case BeginGeneration(chat) => DoBeginGeneration(p, chat, draws, position)
    case ClearGeneration(chat, generation) => DoClearGeneration(p, chat, generation, position)
  }

  // ---- lists of IDs under insertion and deletion ----------------------------

  lemma {:induction false} CountsDistinct(s: seq<u64>)
    ensures Distinct(s) <==> forall x :: multiset(s)[x] <= 1
    ensures forall x :: multiset(s)[x] > 0 <==> x in s
  {
    if s != [] {
      var init, last := s[..|s| - 1], s[|s| - 1];
      assert s == init + [last];
      assert multiset(s) == multiset(init) + multiset{last};
      CountsDistinct(init);
      if Distinct(s) {
        assert last !in init;
        assert Distinct(init);
      }
      if !Distinct(s) {
        if Distinct(init) {
          var i, j :| 0 <= i < j < |s| && s[i] == s[j];
          assert j == |s| - 1 && init[i] == last;
          assert multiset(s)[last] > 1;
        } else {
          var x :| multiset(init)[x] > 1;
          assert multiset(s)[x] > 1;
        }
      }
    }
  }

  lemma AddedIdIsGood(before: seq<u64>, after: seq<u64>, id: u64, max: u64)
    requires GoodIds(before, max) && InRange(id, max) && id !in before
    requires multiset(after) == multiset(before) + multiset{id}
    ensures GoodIds(after, max) && Elements(after) == Elements(before) + {id}
  {
    CountsDistinct(before);
    CountsDistinct(after);
    assert forall x :: x in after <==> x in before || x == id by {
      assert forall x :: multiset(after)[x] == multiset(before)[x] + multiset{id}[x];
    }
    assert forall i :: 0 <= i < |after| ==> after[i] in after;
  }

  lemma RemovedIdsStayGood(before: seq<u64>, after: seq<u64>, removed: seq<u64>, max: u64)
    requires GoodIds(before, max) && multiset(after) + multiset(removed) == multiset(before)
    ensures GoodIds(after, max) && Elements(after) == Elements(before) - Elements(removed)
  {
    CountsDistinct(before);
    CountsDistinct(after);
    CountsDistinct(removed);
    assert forall x :: multiset(after)[x] + multiset(removed)[x] == multiset(before)[x];
    assert forall i :: 0 <= i < |after| ==> after[i] in after;
  }

  lemma AddFront(front: multiset<u64>, a: multiset<u64>, b: multiset<u64>, c: multiset<u64>, d: multiset<u64>)
    requires a + b == c + d
    ensures (front + a) + b == (front + c) + d
  {
    assert (front + a) + b == front + (a + b);
    assert (front + c) + d == front + (c + d);
  }

  lemma {:induction false} ConcatUpdate(parts: seq<seq<u64>>, i: nat, part: seq<u64>)
    requires i < |parts|
    ensures multiset(Concat(parts[i := part])) + multiset(parts[i])
            == multiset(Concat(parts)) + multiset(part)
  {
    var after := parts[i := part];
    if i == 0 {
      assert after[1..] == parts[1..];
    } else {
      assert after[1..] == parts[1..][i - 1 := part] && parts[1..][i - 1] == parts[i];
      ConcatUpdate(parts[1..], i - 1, part);
      AddFront(multiset(parts[0]), multiset(Concat(after[1..])), multiset(parts[i]),
               multiset(Concat(parts[1..])), multiset(part));
    }
  }

  lemma {:induction false} ConcatWithout(parts: seq<seq<u64>>, i: nat)
    requires i < |parts|
    ensures multiset(Concat(Without(parts, i))) + multiset(parts[i]) == multiset(Concat(parts))
  {
    var after := Without(parts, i);
    if i == 0 {
      assert after == parts[1..];
    } else {
      assert after[0] == parts[0] && after[1..] == Without(parts[1..], i - 1);
      ConcatWithout(parts[1..], i - 1);
    }
  }

  lemma IdsOfUpdate(ws: seq<Workspace>, i: nat, w: Workspace)
    requires i < |ws|
    ensures ChatIdsPerWorkspace(ws[i := w]) == ChatIdsPerWorkspace(ws)[i := ChatIdsOf(w.chats)]
    ensures TerminalIdsPerWorkspace(ws[i := w]) == TerminalIdsPerWorkspace(ws)[i := TerminalIdsOf(w.terminals)]
    ensures w.id == ws[i].id ==> WorkspaceIds(ws[i := w]) == WorkspaceIds(ws)
    ensures w.chats == ws[i].chats ==> ChatIds(ws[i := w]) == ChatIds(ws)
    ensures w.terminals == ws[i].terminals ==> TerminalIds(ws[i := w]) == TerminalIds(ws)
  {
    assert ChatIdsPerWorkspace(ws)[i := ChatIdsOf(ws[i].chats)] == ChatIdsPerWorkspace(ws);
    assert TerminalIdsPerWorkspace(ws)[i := TerminalIdsOf(ws[i].terminals)] == TerminalIdsPerWorkspace(ws);
  }

  lemma Cancel(after: multiset<u64>, before: multiset<u64>, gone: multiset<u64>, extra: multiset<u64>)
    requires after + gone == before + (gone + extra)
    ensures after == before + extra
  {
    var left, right := after + gone, before + (gone + extra);
    forall x: u64 ensures after[x] == (before + extra)[x] {
      assert left[x] == right[x];
    }
  }

  lemma WithoutCounts(s: seq<u64>, i: nat)
    requires i < |s|
    ensures multiset(Without(s, i)) + multiset{s[i]} == multiset(s)
  {
    assert s == s[..i] + [s[i]] + s[i + 1..];
  }

  lemma GoodIdsAreValid(ids: seq<u64>, max: u64)
    requires GoodIds(ids, max)
    ensures ValidIds(ids, max) == Elements(ids)
  {
  }

  // ---- tables under insertion and deletion ----------------------------------

  lemma SubtableStays(t: Table, gone: set<u64>)
    requires Injective(t)
    ensures Injective(t - gone) && (t - gone).Values <= t.Values
  {
    forall v | v in (t - gone).Values ensures v in t.Values {
      var k :| k in t - gone && (t - gone)[k] == v;
      assert t[k] == v;
    }
  }

  lemma TokenAdded(t: Table, other: Table, id: u64, token: Identity)
    requires Injective(t) && Apart(other, t.Values) && id !in t
    requires token !in t.Values + other.Values
    ensures Injective(t[id := token]) && Apart(other, t[id := token].Values)
  {
    ValuesOfInsert(t, id, token);
    assert forall k :: k in t ==> t[k] in t.Values;
    assert forall k :: k in other ==> other[k] in other.Values;
  }

  lemma GenerationAdded(t: Table, id: u64, generation: Identity)
    requires Injective(t) && generation !in t.Values
    ensures Injective(t[id := generation])
  {
    assert forall k :: k in t ==> t[k] in t.Values;
  }

  // ---- every operation keeps the project coherent ---------------------------

  lemma PushWorkspaceKeeps(p: Project, name: string, cwd: Option<string>, remote: Option<RemoteTarget>,
                           position: nat)
    requires Coherent(p)
    ensures Coherent(DoPushWorkspace(p, name, cwd, remote, position).project)
  {
    var used := Elements(WorkspaceIds(p.workspaces));
    TakenIdIsFresh(used, p.nextWorkspace, U64_MAX);
    var taken := TakeAvailableId(used, p.nextWorkspace, U64_MAX);
    if taken.Some? {
      var q := DoPushWorkspace(p, name, cwd, remote, position).project;
      PushedIds(p.workspaces, Workspace(taken.value.id, name, cwd, remote, map[], [], []));
      AddedIdIsGood(WorkspaceIds(p.workspaces), WorkspaceIds(q.workspaces), taken.value.id, U64_MAX);
    }
  }

  lemma PushedIds(ws: seq<Workspace>, w: Workspace)
    requires w.chats == [] && w.terminals == []
    ensures WorkspaceIds(ws + [w]) == WorkspaceIds(ws) + [w.id]
    ensures ChatIds(ws + [w]) == ChatIds(ws) && TerminalIds(ws + [w]) == TerminalIds(ws)
  {
    var none: seq<seq<u64>> := [[]];
    assert ChatIdsPerWorkspace(ws + [w]) == ChatIdsPerWorkspace(ws) + none;
    assert TerminalIdsPerWorkspace(ws + [w]) == TerminalIdsPerWorkspace(ws) + none;
    ConcatAppend(ChatIdsPerWorkspace(ws), none);
    ConcatAppend(TerminalIdsPerWorkspace(ws), none);
    assert Concat(none) == [];
  }

  lemma AddedChatIds(ws: seq<Workspace>, i: nat, chat: ChatSession)
    requires i < |ws|
    ensures var after := ws[i := ws[i].(chats := ws[i].chats + [chat])];
            && multiset(ChatIds(after)) == multiset(ChatIds(ws)) + multiset{chat.id}
            && WorkspaceIds(after) == WorkspaceIds(ws) && TerminalIds(after) == TerminalIds(ws)
  {
    var home := ws[i].(chats := ws[i].chats + [chat]);
    IdsOfUpdate(ws, i, home);
    assert ChatIdsOf(home.chats) == ChatIdsOf(ws[i].chats) + [chat.id];
    ConcatUpdate(ChatIdsPerWorkspace(ws), i, ChatIdsOf(home.chats));
    var after := ws[i := home];
    Cancel(multiset(ChatIds(after)), multiset(ChatIds(ws)), multiset(ChatIdsOf(ws[i].chats)), multiset{chat.id});
  }

  lemma AddedTerminalIds(ws: seq<Workspace>, i: nat, terminal: TerminalSession)
    requires i < |ws|
    ensures var after := ws[i := ws[i].(terminals := ws[i].terminals + [terminal])];
            && multiset(TerminalIds(after)) == multiset(TerminalIds(ws)) + multiset{terminal.id}
            && WorkspaceIds(after) == WorkspaceIds(ws) && ChatIds(after) == ChatIds(ws)
  {
    var home := ws[i].(terminals := ws[i].terminals + [terminal]);
    IdsOfUpdate(ws, i, home);
    assert TerminalIdsOf(home.terminals) == TerminalIdsOf(ws[i].terminals) + [terminal.id];
    ConcatUpdate(TerminalIdsPerWorkspace(ws), i, TerminalIdsOf(home.terminals));
    var after := ws[i := home];
    Cancel(multiset(TerminalIds(after)), multiset(TerminalIds(ws)),
           multiset(TerminalIdsOf(ws[i].terminals)), multiset{terminal.id});
  }

  lemma ChatAddedKeeps(p: Project, w: nat, chat: ChatSession, token: Identity, next: u64)
    requires Coherent(p) && w < |p.workspaces|
    requires IsDurable(chat.id) && chat.id !in ChatIds(p.workspaces) && token !in TokensInUse(p)
    ensures var home := p.workspaces[w];
            var q := p.(nextChat := next,
                        workspaces := p.workspaces[w := home.(chats := home.chats + [chat])],
                        chatTokens := p.chatTokens[chat.id := token]);
            Coherent(q) && Elements(ChatIds(q.workspaces)) == Elements(ChatIds(p.workspaces)) + {chat.id}
  {
    var home := p.workspaces[w];
    var ws := p.workspaces[w := home.(chats := home.chats + [chat])];
    AddedChatIds(p.workspaces, w, chat);
    AddedIdIsGood(ChatIds(p.workspaces), ChatIds(ws), chat.id, MAX_DURABLE_SESSION_ID);
    TokenAdded(p.chatTokens, p.terminalTokens, chat.id, token);
  }

  lemma TerminalAddedKeeps(p: Project, w: nat, terminal: TerminalSession, token: Identity, next: u64)
    requires Coherent(p) && w < |p.workspaces|
    requires IsDurable(terminal.id) && terminal.id !in TerminalIds(p.workspaces) && token !in TokensInUse(p)
    ensures var home := p.workspaces[w];
            var q := p.(nextTerminal := next,
                        workspaces := p.workspaces[w := home.(terminals := home.terminals + [terminal])],
                        terminalTokens := p.terminalTokens[terminal.id := token]);
            Coherent(q) && Elements(TerminalIds(q.workspaces)) == Elements(TerminalIds(p.workspaces)) + {terminal.id}
  {
    var home := p.workspaces[w];
    var ws := p.workspaces[w := home.(terminals := home.terminals + [terminal])];
    AddedTerminalIds(p.workspaces, w, terminal);
    AddedIdIsGood(TerminalIds(p.workspaces), TerminalIds(ws), terminal.id, MAX_DURABLE_SESSION_ID);
    AddNewToken(p.terminalTokens, p.chatTokens.Values, terminal.id, token);
  }

  /** The ID an addition takes is durable, new, and leaves a settled hint settled. */
  lemma TakenForList(ids: seq<u64>, hint: u64)
    requires GoodIds(ids, MAX_DURABLE_SESSION_ID)
    ensures ValidIds(ids, MAX_DURABLE_SESSION_ID) == Elements(ids)
    ensures var taken := TakeAvailableId(Elements(ids), hint, MAX_DURABLE_SESSION_ID);
            taken.Some? ==>
              && IsDurable(taken.value.id) && taken.value.id !in ids
              && (StableHint(hint, Elements(ids), MAX_DURABLE_SESSION_ID) ==>
                    StableHint(taken.value.next, Elements(ids) + {taken.value.id}, MAX_DURABLE_SESSION_ID))
  {
    GoodIdsAreValid(ids, MAX_DURABLE_SESSION_ID);
    TakenIdIsFresh(Elements(ids), hint, MAX_DURABLE_SESSION_ID);
    if TakeAvailableId(Elements(ids), hint, MAX_DURABLE_SESSION_ID).Some?
       && StableHint(hint, Elements(ids), MAX_DURABLE_SESSION_ID) {
      TakeKeepsHintStable(hint, Elements(ids), MAX_DURABLE_SESSION_ID);
    }
  }

  lemma AddChatKeeps(p: Project, workspace: u64, name: string, status: ChatStatus, agent: AgentKind,
                     draws: nat -> Draw, position: nat)
    requires Coherent(p)
    ensures var q := DoAddChat(p, workspace, name, status, agent, draws, position).project;
            Coherent(q) && (HintsStable(p) ==> HintsStable(q))
  {
    var r := DoAddChat(p, workspace, name, status, agent, draws, position);
    if r.outcome.Completed? && r.outcome.id.Some? {
      var w := FindWorkspace(p.workspaces, workspace).value;
      var chat := ChatSession(r.outcome.id.value, name, status, agent, []);
      TakenForList(ChatIds(p.workspaces), p.nextChat);
      MintIsNew(draws, position, TokensInUse(p), MAX_ATTEMPTS);
      ChatAddedKeeps(p, w, chat, r.project.chatTokens[chat.id], r.project.nextChat);
      AddedChatIds(p.workspaces, w, chat);
    }
  }

  lemma AddTerminalKeeps(p: Project, workspace: u64, name: string, launch: TerminalLaunch,
                         draws: nat -> Draw, position: nat)
    requires Coherent(p)
    ensures var q := DoAddTerminal(p, workspace, name, launch, draws, position).project;
            Coherent(q) && (HintsStable(p) ==> HintsStable(q))
  {
    var r := DoAddTerminal(p, workspace, name, launch, draws, position);
    if r.outcome.Completed? && r.outcome.id.Some? {
      var w := FindWorkspace(p.workspaces, workspace).value;
      var terminal := TerminalSession(r.outcome.id.value, name, false, launch);
      TakenForList(TerminalIds(p.workspaces), p.nextTerminal);
      MintIsNew(draws, position, TokensInUse(p), MAX_ATTEMPTS);
      TerminalAddedKeeps(p, w, terminal, r.project.terminalTokens[terminal.id], r.project.nextTerminal);
      AddedTerminalIds(p.workspaces, w, terminal);
    }
  }

  /** No ID is new, and a chat that stays keeps the generation it has. */
  ghost predicate Shrinks(p: Project, q: Project) {
    && Elements(WorkspaceIds(q.workspaces)) <= Elements(WorkspaceIds(p.workspaces))
    && Elements(ChatIds(q.workspaces)) <= Elements(ChatIds(p.workspaces))
    && Elements(TerminalIds(q.workspaces)) <= Elements(TerminalIds(p.workspaces))
    && forall id :: id in Elements(ChatIds(q.workspaces)) && id in p.generations ==> id in q.generations
  }

  lemma RemoveWorkspaceKeeps(p: Project, workspace: u64, position: nat)
    requires Coherent(p)
    ensures var q := DoRemoveWorkspace(p, workspace, position).project; Coherent(q) && Shrinks(p, q)
  {
    var found := FindWorkspace(p.workspaces, workspace);
    if found.Some? {
      var ws, w := p.workspaces, found.value;
      var after := Without(ws, w);
      assert ChatIdsPerWorkspace(after) == Without(ChatIdsPerWorkspace(ws), w);
      assert TerminalIdsPerWorkspace(after) == Without(TerminalIdsPerWorkspace(ws), w);
      assert WorkspaceIds(after) == Without(WorkspaceIds(ws), w);
      ConcatWithout(ChatIdsPerWorkspace(ws), w);
      ConcatWithout(TerminalIdsPerWorkspace(ws), w);
      WithoutCounts(WorkspaceIds(ws), w);
      RemovedIdsStayGood(WorkspaceIds(ws), WorkspaceIds(after), [ws[w].id], U64_MAX);
      RemovedIdsStayGood(ChatIds(ws), ChatIds(after), ChatIdsOf(ws[w].chats), MAX_DURABLE_SESSION_ID);
      RemovedIdsStayGood(TerminalIds(ws), TerminalIds(after), TerminalIdsOf(ws[w].terminals), MAX_DURABLE_SESSION_ID);
      SubtableStays(p.chatTokens, Elements(ChatIdsOf(ws[w].chats)));
      SubtableStays(p.terminalTokens, Elements(TerminalIdsOf(ws[w].terminals)));
      SubtableStays(p.generations, Elements(ChatIdsOf(ws[w].chats)));
    }
  }

  lemma RemovedChatIds(ws: seq<Workspace>, w: nat, c: nat)
    requires w < |ws| && c < |ws[w].chats|
    ensures var after := ws[w := ws[w].(chats := Without(ws[w].chats, c))];
            && multiset(ChatIds(after)) + multiset([ws[w].chats[c].id]) == multiset(ChatIds(ws))
            && WorkspaceIds(after) == WorkspaceIds(ws) && TerminalIds(after) == TerminalIds(ws)
  {
    var left := ws[w].(chats := Without(ws[w].chats, c));
    IdsOfUpdate(ws, w, left);
    assert ChatIdsOf(left.chats) == Without(ChatIdsOf(ws[w].chats), c);
    WithoutCounts(ChatIdsOf(ws[w].chats), c);
    ConcatUpdate(ChatIdsPerWorkspace(ws), w, ChatIdsOf(left.chats));
    var one := multiset([ws[w].chats[c].id]);
    Cancel(multiset(ChatIds(ws)), multiset(ChatIds(ws[w := left])), multiset(ChatIdsOf(left.chats)), one);
  }

  lemma RemovedTerminalIds(ws: seq<Workspace>, w: nat, t: nat)
    requires w < |ws| && t < |ws[w].terminals|
    ensures var after := ws[w := ws[w].(terminals := Without(ws[w].terminals, t))];
            && multiset(TerminalIds(after)) + multiset([ws[w].terminals[t].id]) == multiset(TerminalIds(ws))
            && WorkspaceIds(after) == WorkspaceIds(ws) && ChatIds(after) == ChatIds(ws)
  {
    var left := ws[w].(terminals := Without(ws[w].terminals, t));
    IdsOfUpdate(ws, w, left);
    assert TerminalIdsOf(left.terminals) == Without(TerminalIdsOf(ws[w].terminals), t);
    WithoutCounts(TerminalIdsOf(ws[w].terminals), t);
    ConcatUpdate(TerminalIdsPerWorkspace(ws), w, TerminalIdsOf(left.terminals));
    var one := multiset([ws[w].terminals[t].id]);
    Cancel(multiset(TerminalIds(ws)), multiset(TerminalIds(ws[w := left])), multiset(TerminalIdsOf(left.terminals)),
           one);
  }

  lemma RemoveChatKeeps(p: Project, workspace: u64, chat: u64, position: nat)
    requires Coherent(p)
    ensures var q := DoRemoveChat(p, workspace, chat, position).project; Coherent(q) && Shrinks(p, q)
  {
    var r := DoRemoveChat(p, workspace, chat, position);
    if r.outcome.id.Some? {
      var w := FindWorkspace(p.workspaces, workspace).value;
      var c := FindId(ChatIdsOf(p.workspaces[w].chats), chat).value;
      RemovedChatIds(p.workspaces, w, c);
      RemovedIdsStayGood(ChatIds(p.workspaces), ChatIds(r.project.workspaces), [chat], MAX_DURABLE_SESSION_ID);
      assert Elements([chat]) == {chat};
      SubtableStays(p.chatTokens, {chat});
      SubtableStays(p.generations, {chat});
    }
  }

  lemma RemoveTerminalKeeps(p: Project, workspace: u64, terminal: u64, position: nat)
    requires Coherent(p)
    ensures var q := DoRemoveTerminal(p, workspace, terminal, position).project; Coherent(q) && Shrinks(p, q)
  {
    var r := DoRemoveTerminal(p, workspace, terminal, position);
    if r.outcome.id.Some? {
      var w := FindWorkspace(p.workspaces, workspace).value;
      var t := FindId(TerminalIdsOf(p.workspaces[w].terminals), terminal).value;
      RemovedTerminalIds(p.workspaces, w, t);
      RemovedIdsStayGood(TerminalIds(p.workspaces), TerminalIds(r.project.workspaces), [terminal],
                         MAX_DURABLE_SESSION_ID);
      assert Elements([terminal]) == {terminal};
      SubtableStays(p.terminalTokens, {terminal});
    }
  }

  lemma GenerationsKeep(p: Project, chat: u64, generation: Identity, draws: nat -> Draw, position: nat)
    requires Coherent(p)
    ensures Coherent(DoBeginGeneration(p, chat, draws, position).project)
    ensures Coherent(DoClearGeneration(p, chat, generation, position).project)
  {
    MintIsNew(draws, position, p.generations.Values, MAX_ATTEMPTS);
    var minted := Mint(draws, position, p.generations.Values, MAX_ATTEMPTS);
    if minted.identity.Some? {
      GenerationAdded(p.generations, chat, minted.identity.value);
    }
    SubtableStays(p.generations, {chat});
  }

  /** One operation keeps an accepted project accepted. */
  lemma ApplyKeepsCoherent(p: Project, op: Operation, draws: nat -> Draw, position: nat)
    requires Coherent(p)
    ensures Coherent(Apply(p, op, draws, position).project)
  {
    match op
    case PushWorkspace(name, cwd, remote) => PushWorkspaceKeeps(p, name, cwd, remote, position);
    case AddChat(workspace, name, status, agent) =>
      AddChatKeeps(p, workspace, name, status, agent, draws, position);
    case AddTerminal(workspace, name, launch) => AddTerminalKeeps(p, workspace, name, launch, draws, position);
    case RemoveWorkspace(workspace) => RemoveWorkspaceKeeps(p, workspace, position);
    case RemoveChat(workspace, chat) => RemoveChatKeeps(p, workspace, chat, position);
    case RemoveTerminal(workspace, terminal) => RemoveTerminalKeeps(p, workspace, terminal, position);
    case BeginGeneration(chat) => GenerationsKeep(p, chat, p.namespace, draws, position);
    case ClearGeneration(chat, generation) => GenerationsKeep(p, chat, generation, draws, position);
  }

  /** An operation that fails, for want of entropy or of an ID, leaves the project as it was. */
  lemma FailureChangesNothing(p: Project, op: Operation, draws: nat -> Draw, position: nat)
    requires Apply(p, op, draws, position).outcome.Refused?
    ensures Apply(p, op, draws, position).project == p
  {
  }

  datatype Reached = Reached(project: Project, position: nat)

  function Run(p: Project, ops: seq<Operation>, draws: nat -> Draw, position: nat): Reached
    decreases |ops|
  {
    if ops == [] then Reached(p, position)
    else
      var r := Apply(p, ops[0], draws, position);
      Run(r.project, ops[1..], draws, r.position)
  }

  /** Every run of operations keeps the project accepted by validation, whatever the entropy. */
  lemma {:induction false} RunKeepsValid(p: Project, ops: seq<Operation>, draws: nat -> Draw, position: nat)
    requires Validate(p).None?
    ensures Validate(Run(p, ops, draws, position).project).None?
    decreases |ops|
  {
    if ops != [] {
      ValidateAcceptsCoherent(p);
      ApplyKeepsCoherent(p, ops[0], draws, position);
      var r := Apply(p, ops[0], draws, position);
      ValidateAcceptsCoherent(r.project);
      RunKeepsValid(r.project, ops[1..], draws, r.position);
    }
  }

  // ---- additions keep the repairs settled -----------------------------------

  /** An addition of a workspace, an unbusy chat, or a terminal. */
  predicate IsAddition(op: Operation) {
    op.PushWorkspace? || op.AddTerminal? || (op.AddChat? && !NeedsOwner(op.status))
  }

  /** A project that loading would leave exactly as it is. */
  ghost predicate SettledProject(p: Project) {
    p.version == STATE_VERSION && Coherent(p) && HintsStable(p) && StatusesOwned(p)
  }

  lemma AdditionKeepsHints(p: Project, op: Operation, draws: nat -> Draw, position: nat)
    requires Coherent(p) && HintsStable(p) && IsAddition(op)
    ensures HintsStable(Apply(p, op, draws, position).project)
  {
    match op
    case PushWorkspace(name, cwd, remote) => PushWorkspaceKeepsHints(p, name, cwd, remote, position);
    case AddChat(workspace, name, status, agent) =>
      AddChatKeeps(p, workspace, name, status, agent, draws, position);
    case AddTerminal(workspace, name, launch) => AddTerminalKeeps(p, workspace, name, launch, draws, position);
  }

  lemma PushWorkspaceKeepsHints(p: Project, name: string, cwd: Option<string>, remote: Option<RemoteTarget>,
                                position: nat)
    requires Coherent(p) && HintsStable(p)
    ensures HintsStable(DoPushWorkspace(p, name, cwd, remote, position).project)
  {
    var used := Elements(WorkspaceIds(p.workspaces));
    var taken := TakeAvailableId(used, p.nextWorkspace, U64_MAX);
    if taken.Some? {
      var id := taken.value.id;
      TakenIdIsFresh(used, p.nextWorkspace, U64_MAX);
      TakeKeepsHintStable(p.nextWorkspace, used, U64_MAX);
      PushedIds(p.workspaces, Workspace(id, name, cwd, remote, map[], [], []));
      assert multiset(WorkspaceIds(p.workspaces) + [id]) == multiset(WorkspaceIds(p.workspaces)) + multiset{id};
      AddedIdIsGood(WorkspaceIds(p.workspaces), WorkspaceIds(p.workspaces) + [id], id, U64_MAX);
    }
  }

  lemma AdditionKeepsStatuses(p: Project, op: Operation, draws: nat -> Draw, position: nat)
    requires StatusesOwned(p) && IsAddition(op)
    ensures StatusesOwned(Apply(p, op, draws, position).project)
    ensures Apply(p, op, draws, position).project.version == p.version
  {
  }

  /** Every run of additions from a settled project ends in a settled project. */
  lemma {:induction false} AdditionsStaySettled(p: Project, ops: seq<Operation>, draws: nat -> Draw, position: nat)
    requires SettledProject(p) && forall op :: op in ops ==> IsAddition(op)
    ensures SettledProject(Run(p, ops, draws, position).project)
    decreases |ops|
  {
    if ops != [] {
      assert ops[0] in ops;
      ApplyKeepsCoherent(p, ops[0], draws, position);
      AdditionKeepsHints(p, ops[0], draws, position);
      AdditionKeepsStatuses(p, ops[0], draws, position);
      var r := Apply(p, ops[0], draws, position);
      AdditionsStaySettled(r.project, ops[1..], draws, r.position);
    }
  }
}

/** When a removal leaves a project that loading would leave alone. */
module ProjectRemovals {
  import opened Primitives
  import opened IdAllocator
  import opened SessionIdentities
  import opened ProjectModel
  import opened ProjectNormalization
  import opened ProjectOperations
  import opened ProjectRoundTrips

  predicate IsRemoval(op: Operation) {
    op.RemoveWorkspace? || op.RemoveChat? || op.RemoveTerminal?
  }

  function Removed(p: Project, op: Operation, draws: nat -> Draw, position: nat): Project {
    Apply(p, op, draws, position).project
  }

  /** The hint can stay as it is when these IDs are freed. */
  predicate HintOutlives(hint: u64, used: set<u64>, left: set<u64>, max: u64) {
    left == used || (hint != 0 && (max in used && max !in left ==> hint > Highest(left, max)))
  }

  /** All three hints can stay: what a caller can read off the IDs before and after. */
  predicate HintsOutlive(p: Project, q: Project) {
    && HintOutlives(p.nextWorkspace, Elements(WorkspaceIds(p.workspaces)), Elements(WorkspaceIds(q.workspaces)),
                    U64_MAX)
    && HintOutlives(p.nextChat, Elements(ChatIds(p.workspaces)), Elements(ChatIds(q.workspaces)),
                    MAX_DURABLE_SESSION_ID)
    && HintOutlives(p.nextTerminal, Elements(TerminalIds(p.workspaces)), Elements(TerminalIds(q.workspaces)),
                    MAX_DURABLE_SESSION_ID)
  }

  lemma HintOutlivesIff(hint: u64, used: set<u64>, left: set<u64>, max: u64)
    requires StableHint(hint, used, max) && left <= used && forall id :: id in used ==> InRange(id, max)
    ensures StableHint(hint, left, max) <==> HintOutlives(hint, used, left, max)
  {
    var freed := used - left;
    assert used - freed == left;
    FreeingMovesHintExactlyWhen(hint, used, freed, max);
  }

  lemma RemovalShrinks(p: Project, op: Operation, draws: nat -> Draw, position: nat)
    requires Coherent(p) && IsRemoval(op)
    ensures Coherent(Removed(p, op, draws, position)) && Shrinks(p, Removed(p, op, draws, position))
  {
    match op
    case RemoveWorkspace(workspace) => RemoveWorkspaceKeeps(p, workspace, position);
    case RemoveChat(workspace, chat) => RemoveChatKeeps(p, workspace, chat, position);
    case RemoveTerminal(workspace, terminal) => RemoveTerminalKeeps(p, workspace, terminal, position);
  }

  /** Every chat there is was there before. */
  ghost predicate ChatsWereThere(before: seq<Workspace>, after: seq<Workspace>) {
    forall w, c :: 0 <= w < |after| && 0 <= c < |after[w].chats| ==>
      exists v :: 0 <= v < |before| && after[w].chats[c] in before[v].chats
  }

  lemma WorkspaceWithFewer(ws: seq<Workspace>, i: nat, w: Workspace)
    requires i < |ws| && forall chat :: chat in w.chats ==> chat in ws[i].chats
    ensures ChatsWereThere(ws, ws[i := w])
  {
    var after := ws[i := w];
    forall v, c | 0 <= v < |after| && 0 <= c < |after[v].chats|
      ensures exists u :: 0 <= u < |ws| && after[v].chats[c] in ws[u].chats
    {
      assert after[v].chats[c] in ws[v].chats;
    }
  }

  lemma WorkspacesWithout(ws: seq<Workspace>, i: nat)
    requires i < |ws|
    ensures ChatsWereThere(ws, Without(ws, i))
  {
    var after := Without(ws, i);
    forall v, c | 0 <= v < |after| && 0 <= c < |after[v].chats|
      ensures exists u :: 0 <= u < |ws| && after[v].chats[c] in ws[u].chats
    {
      assert after[v] == ws[if v < i then v else v + 1];
    }
  }

  lemma WithoutHoldsFewer<T>(s: seq<T>, i: nat, x: T)
    requires i < |s| && x in Without(s, i)
    ensures x in s
  {
  }

  lemma RemovalKeepsChats(p: Project, op: Operation, draws: nat -> Draw, position: nat)
    requires IsRemoval(op)
    ensures ChatsWereThere(p.workspaces, Removed(p, op, draws, position).workspaces)
  {
    var found := FindWorkspace(p.workspaces, op.workspace);
    if found.Some? {
      var i, home := found.value, p.workspaces[found.value];
      match op
      case RemoveWorkspace(_) => WorkspacesWithout(p.workspaces, i);
      case RemoveChat(_, chat) =>
        var c := FindId(ChatIdsOf(home.chats), chat);
        if c.Some? {
          forall x | x in Without(home.chats, c.value) ensures x in home.chats {
            WithoutHoldsFewer(home.chats, c.value, x);
          }
          WorkspaceWithFewer(p.workspaces, i, home.(chats := Without(home.chats, c.value)));
        }
      case RemoveTerminal(_, terminal) =>
        var t := FindId(TerminalIdsOf(home.terminals), terminal);
        if t.Some? {
          WorkspaceWithFewer(p.workspaces, i, home.(terminals := Without(home.terminals, t.value)));
        }
    }
  }

  lemma RemovalKeepsStatuses(p: Project, q: Project)
    requires StatusesOwned(p) && Shrinks(p, q) && ChatsWereThere(p.workspaces, q.workspaces)
    ensures StatusesOwned(q)
  {
    forall w, c | 0 <= w < |q.workspaces| && 0 <= c < |q.workspaces[w].chats|
                  && NeedsOwner(q.workspaces[w].chats[c].status)
      ensures q.workspaces[w].chats[c].id in q.generations
    {
      var v :| 0 <= v < |p.workspaces| && q.workspaces[w].chats[c] in p.workspaces[v].chats;
      assert ChatIdsOf(q.workspaces[w].chats)[c] == q.workspaces[w].chats[c].id;
      ChatIdIsListed(q.workspaces, w, q.workspaces[w].chats[c].id);
    }
  }

  /**
  A removal from a settled project leaves a settled one exactly when the hints
  outlive the IDs freed: none was freed, or there was a free ID to point at and,
  if the top of the range was freed, the hint is above what is left.
  */
  lemma RemovalStaysSettledIff(p: Project, op: Operation, draws: nat -> Draw, position: nat)
    requires SettledProject(p) && IsRemoval(op)
    ensures SettledProject(Removed(p, op, draws, position)) <==> HintsOutlive(p, Removed(p, op, draws, position))
  {
    var q := Removed(p, op, draws, position);
    RemovalShrinks(p, op, draws, position);
    RemovalKeepsChats(p, op, draws, position);
    RemovalKeepsStatuses(p, q);
    RemovalKeepsHints(p, q);
  }

  lemma RemovalKeepsHints(p: Project, q: Project)
    requires Coherent(p) && HintsStable(p) && Shrinks(p, q)
    requires q.nextWorkspace == p.nextWorkspace && q.nextChat == p.nextChat && q.nextTerminal == p.nextTerminal
    ensures HintsStable(q) <==> HintsOutlive(p, q)
  {
    HintOutlivesIff(p.nextWorkspace, Elements(WorkspaceIds(p.workspaces)), Elements(WorkspaceIds(q.workspaces)),
                    U64_MAX);
    HintOutlivesIff(p.nextChat, Elements(ChatIds(p.workspaces)), Elements(ChatIds(q.workspaces)),
                    MAX_DURABLE_SESSION_ID);
    HintOutlivesIff(p.nextTerminal, Elements(TerminalIds(p.workspaces)), Elements(TerminalIds(q.workspaces)),
                    MAX_DURABLE_SESSION_ID);
  }
}

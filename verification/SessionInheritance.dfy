/**
Which sessions of a repaired state go on with the tokens and generations decoded
with it, and which get new ones: a renumbered session may come into another's.
*/
module SessionInheritance {
  import opened Primitives
  import opened IdAllocator
  import opened IdRepair
  import opened SessionIdentities
  import opened ProjectModel
  import opened ProjectNormalization
  import opened StateMigration

  // ---- what is drawn --------------------------------------------------------

  /** The token is one of these draws. */
  ghost predicate DrawnWithin(draws: nat -> Draw, from: nat, to: nat, token: Identity) {
    exists n: nat :: from <= n < to && draws(n) == Drawn(token)
  }

  lemma {:induction false} MintIsDrawn(draws: nat -> Draw, position: nat, taken: set<Identity>, attempts: nat)
    ensures var m := Mint(draws, position, taken, attempts);
            && position <= m.position
            && (m.identity.Some? ==> DrawnWithin(draws, position, m.position, m.identity.value))
    decreases attempts
  {
    if attempts > 0 {
      MintIsDrawn(draws, position + 1, taken, attempts - 1);
      var m := Mint(draws, position, taken, attempts);
      if Acceptable(draws(position), taken) {
        assert draws(position) == Drawn(m.identity.value);
      } else if m.identity.Some? {
        var n: nat :| position + 1 <= n < m.position && draws(n) == Drawn(m.identity.value);
      }
    }
  }

  /** The table keeps what it had, and what it gets beyond that is drawn. */
  ghost predicate FilledByDraws(before: Table, f: Filled, draws: nat -> Draw, position: nat) {
    && position <= f.position
    && (f.table.Some? ==>
          && Extends(before, f.table.value)
          && forall k :: k in f.table.value && k !in before ==>
               DrawnWithin(draws, position, f.position, f.table.value[k]))
  }

  lemma {:induction false} FillDraws(
    ids: seq<u64>, table: Table, others: set<Identity>, draws: nat -> Draw, position: nat)
    ensures FilledByDraws(table, FillFrom(ids, table, others, draws, position), draws, position)
    decreases |ids|
  {
    if ids != [] {
      if ids[0] in table {
        FillDraws(ids[1..], table, others, draws, position);
      } else {
        var m := Mint(draws, position, table.Values + others, MAX_ATTEMPTS);
        MintIsDrawn(draws, position, table.Values + others, MAX_ATTEMPTS);
        if m.identity.Some? {
          var longer := table[ids[0] := m.identity.value];
          FillDraws(ids[1..], longer, others, draws, m.position);
          OneDrawMore(table, ids[0], m, FillFrom(ids, table, others, draws, position), draws, position);
        }
      }
    }
  }

  lemma OneDrawMore(before: Table, id: u64, m: Minted, f: Filled, draws: nat -> Draw, position: nat)
    requires id !in before && m.identity.Some? && position <= m.position
    requires DrawnWithin(draws, position, m.position, m.identity.value)
    requires FilledByDraws(before[id := m.identity.value], f, draws, m.position)
    ensures FilledByDraws(before, f, draws, position)
  {
    var longer := before[id := m.identity.value];
    if f.table.Some? {
      assert forall k :: k in before ==> k in longer && longer[k] == before[k];
      assert id in longer;
      forall k | k in f.table.value && k !in before
        ensures DrawnWithin(draws, position, f.position, f.table.value[k])
      {
        DrawnWithinMore(draws, if k == id then position else m.position, if k == id then m.position else f.position,
                        position, f.position, f.table.value[k]);
      }
    }
  }

  lemma DrawnWithinMore(draws: nat -> Draw, from: nat, to: nat, earlier: nat, later: nat, token: Identity)
    requires DrawnWithin(draws, from, to, token) && earlier <= from && to <= later
    ensures DrawnWithin(draws, earlier, later, token)
  {
    var n: nat :| from <= n < to && draws(n) == Drawn(token);
  }

  // ---- what is inherited ----------------------------------------------------

  /** A live session's token is held first by some live session, whose entry survives. */
  lemma FirstLiveHolder(table: Table, live: set<u64>, seen: set<Identity>, k: u64) returns (first: u64)
    requires k in table && k in live && table[k] !in seen
    ensures Survives(table, live, seen, first) && table[first] == table[k]
    decreases k
  {
    if Survives(table, live, seen, k) {
      first := k;
    } else {
      var j :| j in table && j in live && j < k && table[j] == table[k];
      first := FirstLiveHolder(table, live, seen, j);
    }
  }

  /** The chat tokens decoded that are still there. */
  function ChatTokensKept(p: Project, q: Project): set<Identity> {
    SurvivingTokens(p.chatTokens, Elements(ChatIds(q.workspaces)))
  }

  predicate ChatEntrySurvives(p: Project, q: Project, k: u64) {
    Survives(p.chatTokens, Elements(ChatIds(q.workspaces)), {}, k)
  }

  /** A terminal's entry survives only if its token is not one a chat keeps. */
  predicate TerminalEntrySurvives(p: Project, q: Project, k: u64) {
    Survives(p.terminalTokens, Elements(TerminalIds(q.workspaces)), ChatTokensKept(p, q), k)
  }

  predicate GenerationSurvives(p: Project, q: Project, k: u64) {
    Survives(p.generations, Elements(ChatIds(q.workspaces)), {}, k)
  }

  /** The session goes on with what was decoded under its ID. */
  predicate Inherits(before: Table, after: Table, k: u64) {
    k in before && k in after && after[k] == before[k]
  }

  /** A token drawn in this repair, and held by no entry that survives it. */
  ghost predicate NewlyMinted(p: Project, q: Project, token: Identity, draws: nat -> Draw, from: nat, to: nat) {
    && DrawnWithin(draws, from, to, token)
    && (forall k :: ChatEntrySurvives(p, q, k) ==> p.chatTokens[k] != token)
    && (forall k :: TerminalEntrySurvives(p, q, k) ==> p.terminalTokens[k] != token)
  }

  lemma ChatInheritsIff(p: Project, q: Project, k: u64)
    requires CoherentTables(q) && TablesSurvive(p.chatTokens, p.terminalTokens, p.generations, q)
    requires k in ChatIds(q.workspaces)
    ensures Inherits(p.chatTokens, q.chatTokens, k) <==> ChatEntrySurvives(p, q, k)
  {
    if Inherits(p.chatTokens, q.chatTokens, k) {
      var first := FirstLiveHolder(p.chatTokens, Elements(ChatIds(q.workspaces)), {}, k);
    }
  }

  lemma TerminalInheritsIff(p: Project, q: Project, k: u64)
    requires CoherentTables(q) && TablesSurvive(p.chatTokens, p.terminalTokens, p.generations, q)
    requires k in TerminalIds(q.workspaces)
    ensures Inherits(p.terminalTokens, q.terminalTokens, k) <==> TerminalEntrySurvives(p, q, k)
  {
    if Inherits(p.terminalTokens, q.terminalTokens, k) {
      if p.terminalTokens[k] !in ChatTokensKept(p, q) {
        var first := FirstLiveHolder(p.terminalTokens, Elements(TerminalIds(q.workspaces)), ChatTokensKept(p, q), k);
      }
    }
  }

  /** Everything the table repair adds is drawn. */
  lemma RepairedTablesAreDrawn(p: Project, draws: nat -> Draw, position: nat)
    ensures var r := NormalizeIdentities(p, draws, position);
            var kept := RetainedTables(p);
            r.project.Some? ==>
              && (forall k :: k in r.project.value.chatTokens && k !in kept.chatTokens ==>
                    DrawnWithin(draws, position, r.position, r.project.value.chatTokens[k]))
              && (forall k :: k in r.project.value.terminalTokens && k !in kept.terminalTokens ==>
                    DrawnWithin(draws, position, r.position, r.project.value.terminalTokens[k]))
  {
    var kept := RetainedTables(p);
    FillBothDraws(Ascending(Elements(ChatIds(p.workspaces))), Ascending(Elements(TerminalIds(p.workspaces))),
                  kept.chatTokens, kept.terminalTokens, draws, position);
  }

  lemma FillBothDraws(chatIds: seq<u64>, terminalIds: seq<u64>, chats: Table, terminals: Table,
                      draws: nat -> Draw, position: nat)
    ensures var first := FillFrom(chatIds, chats, terminals.Values, draws, position);
            first.table.Some? ==>
              var second := FillFrom(terminalIds, terminals, first.table.value.Values, draws, first.position);
              second.table.Some? ==>
                && (forall k :: k in first.table.value && k !in chats ==>
                      DrawnWithin(draws, position, second.position, first.table.value[k]))
                && (forall k :: k in second.table.value && k !in terminals ==>
                      DrawnWithin(draws, position, second.position, second.table.value[k]))
  {
    var first := FillFrom(chatIds, chats, terminals.Values, draws, position);
    FillDraws(chatIds, chats, terminals.Values, draws, position);
    if first.table.Some? {
      var second := FillFrom(terminalIds, terminals, first.table.value.Values, draws, first.position);
      FillDraws(terminalIds, terminals, first.table.value.Values, draws, first.position);
      if second.table.Some? {
        forall k | k in first.table.value && k !in chats
          ensures DrawnWithin(draws, position, second.position, first.table.value[k])
        {
          DrawnWithinMore(draws, position, first.position, position, second.position, first.table.value[k]);
        }
        forall k | k in second.table.value && k !in terminals
          ensures DrawnWithin(draws, position, second.position, second.table.value[k])
        {
          DrawnWithinMore(draws, first.position, second.position, position, second.position, second.table.value[k]);
        }
      }
    }
  }

  /** What the repair leaves of the tables before it fills them: the entries that survive. */
  lemma KeptEntriesSurvive(p: Project, q: Project)
    requires ChatIds(q.workspaces) == ChatIds(p.workspaces) && TerminalIds(q.workspaces) == TerminalIds(p.workspaces)
    ensures forall k :: k in RetainedTables(p).chatTokens <==> ChatEntrySurvives(p, q, k)
    ensures forall k :: k in RetainedTables(p).terminalTokens <==> TerminalEntrySurvives(p, q, k)
  {
    var chats, terminals := Elements(ChatIds(p.workspaces)), Elements(TerminalIds(p.workspaces));
    RetainKeepsSurvivors(p.chatTokens, chats, {});
    RetainedTokensAreSurviving(p.chatTokens, chats);
    RetainIsClean(p.chatTokens, chats, {});
    assert Retain(p.chatTokens, chats, {}).seen == SurvivingTokens(p.chatTokens, chats);
    RetainKeepsSurvivors(p.terminalTokens, terminals, SurvivingTokens(p.chatTokens, chats));
  }

  /** The tokens of a repaired project that no surviving entry gives are drawn in the repair. */
  lemma RepairDrawsTheRest(p: Project, draws: nat -> Draw, position: nat)
    requires Repair(p, draws, position).result.Ok?
    ensures var m := Repair(p, draws, position);
            var q := m.result.value;
            && (forall k :: k in q.chatTokens && !ChatEntrySurvives(p, q, k) ==>
                  DrawnWithin(draws, position, m.position, q.chatTokens[k]))
            && (forall k :: k in q.terminalTokens && !TerminalEntrySurvives(p, q, k) ==>
                  DrawnWithin(draws, position, m.position, q.terminalTokens[k]))
  {
    var ids := NormalizeNextIds(p).value;
    var tables := NormalizeIdentities(ids, draws, position).project.value;
    TablesKeepTheRest(ids, draws, position);
    StatusesSettle(tables);
    RepairedTablesAreDrawn(ids, draws, position);
    KeptEntriesSurvive(ids, Repair(p, draws, position).result.value);
  }

  lemma ChatMintedIff(p: Project, q: Project, k: u64, draws: nat -> Draw, from: nat, to: nat)
    requires CoherentTables(q) && TablesSurvive(p.chatTokens, p.terminalTokens, p.generations, q)
    requires k in q.chatTokens && (!ChatEntrySurvives(p, q, k) ==> DrawnWithin(draws, from, to, q.chatTokens[k]))
    ensures NewlyMinted(p, q, q.chatTokens[k], draws, from, to) <==> !ChatEntrySurvives(p, q, k)
  {
    forall j | TerminalEntrySurvives(p, q, j) ensures p.terminalTokens[j] != q.chatTokens[k] {
      assert q.chatTokens[k] in q.chatTokens.Values;
    }
  }

  lemma TerminalMintedIff(p: Project, q: Project, k: u64, draws: nat -> Draw, from: nat, to: nat)
    requires CoherentTables(q) && TablesSurvive(p.chatTokens, p.terminalTokens, p.generations, q)
    requires k in q.terminalTokens
    requires !TerminalEntrySurvives(p, q, k) ==> DrawnWithin(draws, from, to, q.terminalTokens[k])
    ensures NewlyMinted(p, q, q.terminalTokens[k], draws, from, to) <==> !TerminalEntrySurvives(p, q, k)
  {
    forall j | ChatEntrySurvives(p, q, j) ensures p.chatTokens[j] != q.terminalTokens[k] {
      assert q.chatTokens[j] in q.chatTokens.Values;
    }
  }

  // ---- renumbered sessions --------------------------------------------------

  /**
  A renumbered chat takes an ID no decoded session had. It gets a newly minted
  token if and only if no entry decoded under that ID survives; otherwise it goes
  on with that entry's token. It has a generation exactly when one survives there.
  */
  lemma RenumberedChatIsMintedIff(p: Project, draws: nat -> Draw, position: nat, i: nat)
    requires Repair(p, draws, position).result.Ok? && i < |ChatIds(p.workspaces)|
    ensures var m := Repair(p, draws, position);
            var q, before := m.result.value, ChatIds(p.workspaces);
            var after := ChatIds(q.workspaces);
            && |after| == |before|
            && (after[i] != before[i] ==>
                  && after[i] !in before && after[i] in q.chatTokens
                  && (NewlyMinted(p, q, q.chatTokens[after[i]], draws, position, m.position)
                      <==> !ChatEntrySurvives(p, q, after[i]))
                  && (Inherits(p.chatTokens, q.chatTokens, after[i]) <==> ChatEntrySurvives(p, q, after[i]))
                  && (after[i] in q.generations <==> GenerationSurvives(p, q, after[i])))
  {
    var q := Repair(p, draws, position).result.value;
    RepairKeepsSessions(p, draws, position);
    var after := ChatIds(q.workspaces);
    assert after[i] in Elements(after);
    RepairDrawsTheRest(p, draws, position);
    ChatMintedIff(p, q, after[i], draws, position, Repair(p, draws, position).position);
    ChatInheritsIff(p, q, after[i]);
  }

  /** The same for a terminal, whose entry also gives way to a chat that keeps its token. */
  lemma RenumberedTerminalIsMintedIff(p: Project, draws: nat -> Draw, position: nat, i: nat)
    requires Repair(p, draws, position).result.Ok? && i < |TerminalIds(p.workspaces)|
    ensures var m := Repair(p, draws, position);
            var q, before := m.result.value, TerminalIds(p.workspaces);
            var after := TerminalIds(q.workspaces);
            && |after| == |before|
            && (after[i] != before[i] ==>
                  && after[i] !in before && after[i] in q.terminalTokens
                  && (NewlyMinted(p, q, q.terminalTokens[after[i]], draws, position, m.position)
                      <==> !TerminalEntrySurvives(p, q, after[i]))
                  && (Inherits(p.terminalTokens, q.terminalTokens, after[i])
                      <==> TerminalEntrySurvives(p, q, after[i])))
  {
    var q := Repair(p, draws, position).result.value;
    RepairKeepsSessions(p, draws, position);
    var after := TerminalIds(q.workspaces);
    assert after[i] in Elements(after);
    RepairDrawsTheRest(p, draws, position);
    TerminalMintedIff(p, q, after[i], draws, position, Repair(p, draws, position).position);
    TerminalInheritsIff(p, q, after[i]);
  }

  /** A state in which two chats share the ID 5, and entries are left over under the ID 1. */
  function SharedId(namespace: Identity, own: Identity, orphan: Identity, chat: ChatSession): Project {
    Project(4, namespace, map[5 := own, 1 := orphan], map[], map[1 := orphan], 2, 6, 1,
            [Workspace(1, "", None, None, map[], [chat.(id := 5), chat.(id := 5)], [])])
  }

  lemma SecondHolderTakesOne(max: u64)
    requires max > 5
    ensures Repaired([5, 5], max) == Some([5, 1])
  {
    var ids: seq<u64> := [5, 5];
    var rest: seq<u64> := [5];
    assert ValidIds(ids, max) == {5};
    FreeStartIsFound({5}, 1, max);
    var taken := TakeAvailableId({5}, 1, max).value;
    var after := Repairing({5} + {taken.id}, {5} + {taken.id}, taken.next);
    RepairOnward(Repairing({5}, {5}, 1), rest, max, after, 1, []);
    assert ids[1..] == rest && [1] + [] == [1] && [5] + [1] == [5, 1] && {} + {5} == {5};
    RepairOnward(Repairing({5}, {}, 1), ids, max, Repairing({5}, {5}, 1), 5, [1]);
  }

  lemma RepairOnward(st: Repairing, ids: seq<u64>, max: u64, next: Repairing, id: u64, rest: seq<u64>)
    requires ids != [] && RepairItem(st, ids[0], max) == Some((next, id))
    requires RepairFrom(next, ids[1..], max) == Some(rest)
    ensures RepairFrom(st, ids, max) == Some([id] + rest)
  {
  }

  /** ID repair, as it concerns the chats: their IDs are repaired and the tables left alone. */
  lemma RepairedChatIds(p: Project)
    requires |ChatIds(p.workspaces)| <= MAX_DURABLE_SESSION_ID && |TerminalIds(p.workspaces)| <= MAX_DURABLE_SESSION_ID
    requires |p.workspaces| <= U64_MAX
    ensures var ids := NormalizeNextIds(p);
            && ids.Ok? && Some(ChatIds(ids.value.workspaces)) == Repaired(ChatIds(p.workspaces), MAX_DURABLE_SESSION_ID)
            && |TerminalIds(ids.value.workspaces)| == |TerminalIds(p.workspaces)|
            && ids.value.chatTokens == p.chatTokens && ids.value.terminalTokens == p.terminalTokens
            && ids.value.generations == p.generations
  {
    RepairedWorkspacesIs(p.workspaces);
    RepairKeepsFirstHolders(WorkspaceIds(p.workspaces), U64_MAX);
    RepairKeepsFirstHolders(ChatIds(p.workspaces), MAX_DURABLE_SESSION_ID);
    RepairKeepsFirstHolders(TerminalIds(p.workspaces), MAX_DURABLE_SESSION_ID);
  }

  /** Its IDs come out as 5 and 1, and all its entries are of chats then there. */
  lemma SharedIdIsRenumbered(namespace: Identity, own: Identity, orphan: Identity, chat: ChatSession)
    requires own != orphan
    ensures var ids := NormalizeNextIds(SharedId(namespace, own, orphan, chat));
            && ids.Ok? && ChatIds(ids.value.workspaces) == [5, 1] && TerminalIds(ids.value.workspaces) == []
            && CoherentTables(ids.value) && CoherentGenerations(ids.value)
  {
    var p := SharedId(namespace, own, orphan, chat);
    SharedIdLists(namespace, own, orphan, chat);
    RepairedChatIds(p);
    SecondHolderTakesOne(MAX_DURABLE_SESSION_ID);
    SharedTablesAreCoherent(NormalizeNextIds(p).value, own, orphan);
  }

  lemma SharedTablesAreCoherent(p: Project, own: Identity, orphan: Identity)
    requires ChatIds(p.workspaces) == [5, 1] && TerminalIds(p.workspaces) == [] && own != orphan
    requires p.chatTokens == map[5 := own, 1 := orphan] && p.terminalTokens == map[]
    requires p.generations == map[1 := orphan]
    ensures CoherentTables(p) && CoherentGenerations(p)
  {
    assert Elements([5, 1]) == {5, 1} by {
      assert forall id :: id in [5, 1] <==> id == 5 || id == 1;
    }
    NoElements<u64>();
  }

  lemma SharedIdLists(namespace: Identity, own: Identity, orphan: Identity, chat: ChatSession)
    ensures var p := SharedId(namespace, own, orphan, chat);
            ChatIds(p.workspaces) == [5, 5] && TerminalIds(p.workspaces) == [] && |p.workspaces| == 1
  {
    var p := SharedId(namespace, own, orphan, chat);
    assert ChatIdsPerWorkspace(p.workspaces)[0] == [5, 5] && TerminalIdsPerWorkspace(p.workspaces)[0] == [];
    OnlyPart(ChatIdsPerWorkspace(p.workspaces));
    OnlyPart(TerminalIdsPerWorkspace(p.workspaces));
  }

  lemma OnlyPart(parts: seq<seq<u64>>)
    requires |parts| == 1
    ensures Concat(parts) == parts[0]
  {
    assert parts[1..] == [] && Concat(parts[1..]) == [];
  }

  /**
  The second chat is renumbered to 1 and goes on with the token and the
  generation of whatever session had that ID; nothing is drawn for it.
  */
  lemma OrphanIsInherited(namespace: Identity, own: Identity, orphan: Identity, chat: ChatSession,
                          draws: nat -> Draw, position: nat)
    requires own != orphan
    ensures var p := SharedId(namespace, own, orphan, chat);
            var m := Repair(p, draws, position);
            && m.result.Ok? && m.position == position && ChatIds(m.result.value.workspaces) == [5, 1]
            && m.result.value.chatTokens == p.chatTokens && m.result.value.generations == p.generations
  {
    var p := SharedId(namespace, own, orphan, chat);
    SharedIdIsRenumbered(namespace, own, orphan, chat);
    var ids := NormalizeNextIds(p).value;
    RetainedTablesStay(ids);
    FillBothNothing(ids.chatTokens, ids.terminalTokens, draws, position);
    StatusesSettle(ids);
  }
}

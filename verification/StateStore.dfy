/**
Loading and saving the project through a codec (`load_with_identity_source`,
`StateStore::save`), and the round trip between them.
*/
module StateStore {
  import opened Primitives
  import opened IdAllocator
  import opened SessionIdentities
  import opened ProjectModel
  import opened ProjectNormalization
  import opened ProjectOperations
  import opened ProjectRemovals
  import opened StateMigration
  import opened ProjectStateObject
  import opened StateDirectory

  const MAX_STATE_FILE_BYTES := 16 * 1024 * 1024

  datatype Decoded =
    | V1(v1: StateV1) | V2(v2: StateV2) | V3(v3: StateV3)
    | Current(project: Project)  // versions 4 and 5 share a shape
    | InvalidJson
    | Unsupported(version: u32)

  /** The serializer: any pair of functions. */
  datatype Codec = Codec(encode: Project -> seq<byte>, decode: seq<byte> -> Decoded)

  function FileContents(codec: Codec, p: Project): seq<byte> {
    codec.encode(p) + [0x0a]
  }

  /** Reading back a written current project gives it back. */
  ghost predicate Faithful(codec: Codec) {
    forall p: Project :: p.version == STATE_VERSION ==> codec.decode(FileContents(codec, p)) == Current(p)
  }

  datatype Loaded = Loaded(project: Project, needsSave: bool, movedAside: bool)

  datatype LoadResult = LoadResult(result: Result<Loaded, LoadError>, position: nat)

  // ---- the starting projects ------------------------------------------------

  /** An empty project with a new namespace. */
  function DefaultProject(draws: nat -> Draw, position: nat): Migrated {
    var namespace := Mint(draws, position, {}, MAX_ATTEMPTS);
    if namespace.identity.None? then Migrated(Err(EntropyFailed), namespace.position)
    else
      Migrated(Ok(Project(STATE_VERSION, namespace.identity.value, map[], map[], map[], 1, 1, 1, [])),
               namespace.position)
  }

  /** A stopped shell in a workspace just pushed. */
  function SeedTerminal(pushed: Applied, terminal: string, draws: nat -> Draw): Migrated {
    if pushed.outcome.Refused? || pushed.outcome.id.None? then Migrated(Err(IdsExhausted), pushed.position)
    else
      var added := Apply(pushed.project, AddTerminal(pushed.outcome.id.value, terminal, Shell), draws, pushed.position);
      if added.outcome.Refused? then
        Migrated(Err(if added.outcome.error == IdentityError then EntropyFailed else IdsExhausted), added.position)
      else Migrated(Ok(added.project), added.position)
  }

  /** A workspace and a stopped shell in it; any refusal ends the first run. */
  function SeedWorkspace(m: Migrated, name: string, cwd: Option<string>, terminal: string,
                         draws: nat -> Draw): Migrated
  {
    if m.result.Err? then m
    else
      SeedTerminal(Apply(m.result.value, Operation.PushWorkspace(name, cwd, None), draws, m.position), terminal, draws)
  }

  /** What a missing state file starts from. */
  function FirstRun(cwd: Option<string>, draws: nat -> Draw, position: nat): Migrated {
    SeedWorkspace(SeedWorkspace(DefaultProject(draws, position), "mult", cwd, "dev server", draws),
                  "website", None, "shell", draws)
  }

  // ---- loading --------------------------------------------------------------

  function FreshlyMade(m: Migrated, movedAside: bool): LoadResult {
    LoadResult(if m.result.Ok? then Ok(Loaded(m.result.value, true, movedAside)) else Err(m.result.error), m.position)
  }

  /** Whether any of the three repair steps changes its input. */
  predicate RepairChanges(p: Project, draws: nat -> Draw, position: nat) {
    && Repair(p, draws, position).result.Ok?
    && var ids := NormalizeNextIds(p).value;
    var tables := NormalizeIdentities(ids, draws, position).project.value;
    ids != p || tables != ids || NormalizeStatuses(tables) != tables
  }

  /** Versions 4 and 5: bump, repair, validate; save again if any step changed something. */
  function LoadCurrent(decoded: Project, draws: nat -> Draw, position: nat): LoadResult {
    var bumped := if decoded.version == 4 then MigrateV4ToV5(decoded) else decoded;
    var m := ValidateCurrent(Repair(bumped, draws, position));
    if m.result.Err? then LoadResult(Err(m.result.error), m.position)
    else
      var changed := decoded.version == 4 || RepairChanges(bumped, draws, position);
      LoadResult(Ok(Loaded(m.result.value, changed, false)), m.position)
  }

  function LoadDecoded(decoded: Decoded, draws: nat -> Draw, position: nat): LoadResult {
    match decoded
    case V1(v1) => FreshlyMade(MigrateV1ToCurrent(v1, draws, position), false)
    case V2(v2) => FreshlyMade(MigrateV2ToCurrent(v2, draws, position), false)
    case V3(v3) => FreshlyMade(MigrateV3ToCurrent(v3, draws, position), false)
    case Current(project) => LoadCurrent(project, draws, position)
    case InvalidJson => FreshlyMade(DefaultProject(draws, position), true)
    case Unsupported(version) => LoadResult(Err(UnsupportedVersion(version)), position)
  }

  /** `file` is what the state name holds, if anything. */
  function Load(file: Option<seq<byte>>, codec: Codec, cwd: Option<string>, draws: nat -> Draw,
                position: nat): LoadResult
  {
    if file.None? then FreshlyMade(FirstRun(cwd, draws, position), false)
    else if |file.value| > MAX_STATE_FILE_BYTES then LoadResult(Err(Oversized), position)
    else LoadDecoded(codec.decode(file.value), draws, position)
  }

  // ---- every load is settled ------------------------------------------------

  lemma DefaultIsSettled(draws: nat -> Draw, position: nat)
    ensures var m := DefaultProject(draws, position);
            m.result.Ok? ==> SettledProject(m.result.value)
  {
    var m := DefaultProject(draws, position);
    if m.result.Ok? {
      var p := m.result.value;
      assert WorkspaceIds(p.workspaces) == [] && ChatIds(p.workspaces) == [] && TerminalIds(p.workspaces) == [];
      assert Elements(WorkspaceIds(p.workspaces)) == {} && Elements(ChatIds(p.workspaces)) == {};
    }
  }

  lemma AdditionStaysSettled(p: Project, op: Operation, draws: nat -> Draw, position: nat)
    requires SettledProject(p) && IsAddition(op)
    ensures SettledProject(Apply(p, op, draws, position).project)
  {
    ApplyKeepsCoherent(p, op, draws, position);
    AdditionKeepsHints(p, op, draws, position);
    AdditionKeepsStatuses(p, op, draws, position);
  }

  lemma SeedTerminalSettled(pushed: Applied, terminal: string, draws: nat -> Draw)
    requires SettledProject(pushed.project)
    ensures var r := SeedTerminal(pushed, terminal, draws);
            r.result.Ok? ==> SettledProject(r.result.value)
  {
    if pushed.outcome.Completed? && pushed.outcome.id.Some? {
      AdditionStaysSettled(pushed.project, AddTerminal(pushed.outcome.id.value, terminal, Shell), draws,
                           pushed.position);
    }
  }

  lemma SeedStaysSettled(m: Migrated, name: string, cwd: Option<string>, terminal: string, draws: nat -> Draw)
    requires m.result.Ok? ==> SettledProject(m.result.value)
    ensures var r := SeedWorkspace(m, name, cwd, terminal, draws);
            r.result.Ok? ==> SettledProject(r.result.value)
  {
    if m.result.Ok? {
      var first := Operation.PushWorkspace(name, cwd, None);
      AdditionStaysSettled(m.result.value, first, draws, m.position);
      SeedTerminalSettled(Apply(m.result.value, first, draws, m.position), terminal, draws);
    }
  }

  lemma LoadCurrentIsSettled(decoded: Project, draws: nat -> Draw, position: nat)
    ensures var r := LoadCurrent(decoded, draws, position).result;
            r.Ok? ==> SettledProject(r.value.project)
  {
    var bumped := if decoded.version == 4 then MigrateV4ToV5(decoded) else decoded;
    RepairKeepsSessions(bumped, draws, position);
  }

  lemma FirstRunIsSettled(cwd: Option<string>, draws: nat -> Draw, position: nat)
    ensures var m := FirstRun(cwd, draws, position);
            m.result.Ok? ==> SettledProject(m.result.value)
  {
    DefaultIsSettled(draws, position);
    SeedStaysSettled(DefaultProject(draws, position), "mult", cwd, "dev server", draws);
    SeedStaysSettled(SeedWorkspace(DefaultProject(draws, position), "mult", cwd, "dev server", draws),
                     "website", None, "shell", draws);
  }

  lemma DecodedIsSettled(decoded: Decoded, draws: nat -> Draw, position: nat)
    ensures var r := LoadDecoded(decoded, draws, position).result;
            r.Ok? ==> SettledProject(r.value.project)
  {
    match decoded
    case V1(v1) => MigrationV1KeepsSessions(v1, draws, position);
    case V2(v2) => MigrateV3IsRepair(MigrateV2ToV3(v2), draws, position);
    case V3(v3) => MigrateV3IsRepair(v3, draws, position);
    case Current(project) => LoadCurrentIsSettled(project, draws, position);
    case InvalidJson => DefaultIsSettled(draws, position);
    case Unsupported(version) =>
  }

  /** Whatever was on disk, a project that loads is one that loading again would not change. */
  lemma LoadedIsSettled(file: Option<seq<byte>>, codec: Codec, cwd: Option<string>, draws: nat -> Draw, position: nat)
    ensures var r := Load(file, codec, cwd, draws, position).result;
            r.Ok? ==> SettledProject(r.value.project)
  {
    if file.None? {
      FirstRunIsSettled(cwd, draws, position);
    } else {
      DecodedIsSettled(codec.decode(file.value), draws, position);
    }
  }

  /** A load asks for a save exactly when what it hands out differs from what the file held. */
  lemma NeedsSaveIffChanged(decoded: Project, draws: nat -> Draw, position: nat)
    ensures var r := LoadCurrent(decoded, draws, position).result;
            r.Ok? ==> (r.value.needsSave <==> r.value.project != decoded)
  {
    var bumped := if decoded.version == 4 then MigrateV4ToV5(decoded) else decoded;
    if LoadCurrent(decoded, draws, position).result.Ok? {
      var ids := NormalizeNextIds(bumped).value;
      TablesKeepTheRest(ids, draws, position);
      var tables := NormalizeIdentities(ids, draws, position).project.value;
      StatusesSettle(tables);
      if NormalizeStatuses(tables) == decoded {
        IdsUnchanged(bumped, ids, tables);
      }
    }
  }

  /** If repairing statuses gives back the decoded workspaces, the IDs were not repaired either. */
  lemma IdsUnchanged(p: Project, ids: Project, tables: Project)
    requires NormalizeStatuses(tables).workspaces == p.workspaces
    requires tables == ids.(chatTokens := tables.chatTokens, terminalTokens := tables.terminalTokens,
                            generations := tables.generations)
    requires ids.nextWorkspace == p.nextWorkspace && ids.nextChat == p.nextChat && ids.nextTerminal == p.nextTerminal
    ensures NormalizeNextIds(p) == Ok(ids) ==> ids == p
  {
    RepairedWorkspacesIs(p.workspaces);
    StatusesSettle(tables);
    if NormalizeNextIds(p) == Ok(ids) { GoodWorkspacesStay(p.workspaces); }
  }

  // ---- the round trip -------------------------------------------------------

  /** A settled project is loaded as it is: nothing changes, nothing is drawn, nothing needs saving. */
  lemma SettledLoadsAsIs(p: Project, draws: nat -> Draw, position: nat)
    requires SettledProject(p)
    ensures LoadCurrent(p, draws, position) == LoadResult(Ok(Loaded(p, false, false)), position)
  {
    NormalizeNextIdsSettles(p);
    CoherentIdentitiesStay(p, draws, position);
    StatusesSettle(p);
    ValidateAcceptsCoherent(p);
  }

  lemma CurrentFileLoads(
    file: seq<byte>, p: Project, codec: Codec, cwd: Option<string>, draws: nat -> Draw, position: nat)
    requires codec.decode(file) == Current(p)
    ensures Load(Some(file), codec, cwd, draws, position)
            == if |file| > MAX_STATE_FILE_BYTES then LoadResult(Err(Oversized), position)
               else LoadCurrent(p, draws, position)
  {
  }

  /**
  Saving a settled project and loading it back gives the same project, needing
  no save, exactly when the file fits what loading is willing to read.
  */
  lemma SaveThenLoad(p: Project, codec: Codec, cwd: Option<string>, draws: nat -> Draw, position: nat)
    requires Faithful(codec) && SettledProject(p)
    ensures Load(Some(FileContents(codec, p)), codec, cwd, draws, position)
            == LoadResult(Ok(Loaded(p, false, false)), position)
            <==> |FileContents(codec, p)| <= MAX_STATE_FILE_BYTES
  {
    SettledLoadsAsIs(p, draws, position);
    CurrentFileLoads(FileContents(codec, p), p, codec, cwd, draws, position);
  }

  /**
  A loaded project, extended by any run of added workspaces, unbusy chats and
  terminals, saved and loaded again, comes back equal, with nothing to save.
  */
  lemma LoadAddSaveLoad(
    file: Option<seq<byte>>, codec: Codec, cwd: Option<string>, draws: nat -> Draw, position: nat,
    ops: seq<Operation>, later: nat -> Draw, laterPosition: nat)
    requires Faithful(codec) && forall op :: op in ops ==> IsAddition(op)
    ensures var first := Load(file, codec, cwd, draws, position);
            first.result.Ok? ==>
              var grown := Run(first.result.value.project, ops, draws, first.position).project;
              |FileContents(codec, grown)| <= MAX_STATE_FILE_BYTES ==>
                Load(Some(FileContents(codec, grown)), codec, cwd, later, laterPosition)
                == LoadResult(Ok(Loaded(grown, false, false)), laterPosition)
  {
    var first := Load(file, codec, cwd, draws, position);
    if first.result.Ok? {
      var grown := Run(first.result.value.project, ops, draws, first.position).project;
      LoadedIsSettled(file, codec, cwd, draws, position);
      AdditionsStaySettled(first.result.value.project, ops, draws, first.position);
      SaveThenLoad(grown, codec, cwd, later, laterPosition);
    }
  }

  // ---- removals -------------------------------------------------------------

  /** A file holding a project that is not settled is repaired on loading, or not loaded at all. */
  lemma UnsettledIsNotLoadedAsIs(p: Project, codec: Codec, cwd: Option<string>, draws: nat -> Draw, position: nat)
    requires !SettledProject(p)
    ensures Load(Some(FileContents(codec, p)), codec, cwd, draws, position)
            != LoadResult(Ok(Loaded(p, false, false)), position)
  {
    LoadedIsSettled(Some(FileContents(codec, p)), codec, cwd, draws, position);
  }

  /**
  A settled project, less a workspace, chat or terminal, comes back from a save
  and a load as it is exactly when its hints outlive the IDs freed and the file
  fits what loading is willing to read.
  */
  lemma RemoveSaveLoadIff(p: Project, op: Operation, codec: Codec, cwd: Option<string>,
                          draws: nat -> Draw, position: nat, later: nat -> Draw, laterPosition: nat)
    requires Faithful(codec) && SettledProject(p) && IsRemoval(op)
    ensures var q := Removed(p, op, draws, position);
            Load(Some(FileContents(codec, q)), codec, cwd, later, laterPosition)
            == LoadResult(Ok(Loaded(q, false, false)), laterPosition)
            <==> HintsOutlive(p, q) && |FileContents(codec, q)| <= MAX_STATE_FILE_BYTES
  {
    var q := Removed(p, op, draws, position);
    RemovalStaysSettledIff(p, op, draws, position);
    if SettledProject(q) {
      SaveThenLoad(q, codec, cwd, later, laterPosition);
    } else {
      UnsettledIsNotLoadedAsIs(q, codec, cwd, later, laterPosition);
    }
  }

  // ---- files that are too large ---------------------------------------------

  /** An encoding is at least as long as any workspace name in it. */
  ghost predicate CarriesNames(codec: Codec) {
    forall p: Project, w :: 0 <= w < |p.workspaces| ==> |codec.encode(p)| >= |p.workspaces[w].name|
  }

  /** One empty workspace. */
  function OneWorkspace(namespace: Identity, name: string): Project {
    Project(STATE_VERSION, namespace, map[], map[], map[], 2, 1, 1,
            [Workspace(1, name, None, None, map[], [], [])])
  }

  lemma OneWorkspaceIsSettled(namespace: Identity, name: string)
    ensures SettledProject(OneWorkspace(namespace, name))
  {
    var p := OneWorkspace(namespace, name);
    var none: seq<u64> := [];
    assert WorkspaceIds(p.workspaces) == [1];
    assert ChatIdsPerWorkspace(p.workspaces) == [none] && TerminalIdsPerWorkspace(p.workspaces) == [none];
    assert Concat([none]) == none;
    NoElements<u64>();
    assert Elements(WorkspaceIds(p.workspaces)) == {1};
  }

  /** So a name longer than the limit makes an accepted, settled project that saves and does not load back. */
  lemma SavedButTooLargeToLoad(namespace: Identity, name: string, codec: Codec, cwd: Option<string>,
                               draws: nat -> Draw, position: nat)
    requires Faithful(codec) && CarriesNames(codec) && |name| > MAX_STATE_FILE_BYTES
    ensures var p := OneWorkspace(namespace, name);
            && SettledProject(p) && Validate(p).None?
            && Load(Some(FileContents(codec, p)), codec, cwd, draws, position) == LoadResult(Err(Oversized), position)
  {
    var p := OneWorkspace(namespace, name);
    OneWorkspaceIsSettled(namespace, name);
    ValidateAcceptsCoherent(p);
    assert p.workspaces[0].name == name;
    CurrentFileLoads(FileContents(codec, p), p, codec, cwd, draws, position);
  }

  // ---- loading, step by step ------------------------------------------------

  lemma RepairSteps(p: Project, draws: nat -> Draw, position: nat)
    ensures var ids := NormalizeNextIds(p);
            if ids.Err? then Repair(p, draws, position) == Migrated(Err(IdsExhausted), position)
            else
              var tables := NormalizeIdentities(ids.value, draws, position);
              if tables.project.None? then
                Repair(p, draws, position) == Migrated(Err(EntropyFailed), tables.position)
              else
                && Repair(p, draws, position) == Migrated(Ok(NormalizeStatuses(tables.project.value)), tables.position)
                && (RepairChanges(p, draws, position)
                    <==> ids.value != p || tables.project.value != ids.value
                         || NormalizeStatuses(tables.project.value) != tables.project.value)
  {
  }

  method RepairInPlace(state: ProjectState, source: IdentitySource)
    returns (error: Option<LoadError>, changed: bool)
    modifies state, source
    ensures var m := Repair(old(state.Value()), source.draws, old(source.position));
            && source.position == m.position
            && (if error.None? then m.result == Ok(state.Value()) else m.result == Err(error.value))
    ensures error.None? ==> changed == RepairChanges(old(state.Value()), source.draws, old(source.position))
  {
    RepairSteps(state.Value(), source.draws, source.position);
    var idError, idsChanged := state.NormalizeNextIds();
    if idError.Some? { return Some(IdsExhausted), false; }
    var ok, tablesChanged := state.NormalizeSessionIdentities(source);
    if !ok { return Some(EntropyFailed), false; }
    var statusesChanged := state.NormalizeUnownedAgentStatuses();
    return None, idsChanged || tablesChanged || statusesChanged;
  }

  method MigrateV3(decoded: StateV3, source: IdentitySource) returns (r: Result<Project, LoadError>)
    modifies source
    ensures Migrated(r, source.position) == MigrateV3ToCurrent(decoded, source.draws, old(source.position))
  {
    var p := DecodedV3(decoded);
    var state := new ProjectState.FromDecoded(p);
    var error, changed := RepairInPlace(state, source);
    if error.Some? { return Err(error.value); }
    var repaired := state.ToProject();
    var current := MigrateV4ToV5(repaired);
    if current.version != STATE_VERSION || Validate(current).Some? { return Err(NotCurrent); }
    return Ok(current);
  }

  method LoadV4OrV5(decoded: Project, source: IdentitySource) returns (r: Result<Loaded, LoadError>)
    modifies source
    ensures LoadResult(r, source.position) == LoadCurrent(decoded, source.draws, old(source.position))
  {
    var migrated := decoded.version == 4;
    var state := new ProjectState.FromDecoded(if migrated then MigrateV4ToV5(decoded) else decoded);
    var error, changed := RepairInPlace(state, source);
    if error.Some? { return Err(error.value); }
    var current := state.ToProject();
    if current.version != STATE_VERSION || Validate(current).Some? { return Err(NotCurrent); }
    return Ok(Loaded(current, migrated || changed, false));
  }

  method TryDefault(source: IdentitySource) returns (r: Result<Project, LoadError>)
    modifies source
    ensures Migrated(r, source.position) == DefaultProject(source.draws, old(source.position))
  {
    var namespace := GenerateIdentity(source, {});
    if namespace.None? { return Err(EntropyFailed); }
    return Ok(Project(STATE_VERSION, namespace.value, map[], map[], map[], 1, 1, 1, []));
  }

  method Seed(state: ProjectState, name: string, cwd: Option<string>, terminal: string, source: IdentitySource)
    returns (error: Option<LoadError>)
    modifies state, source
    ensures var m := SeedWorkspace(Migrated(Ok(old(state.Value())), old(source.position)), name, cwd, terminal,
                                   source.draws);
            && source.position == m.position
            && (if error.None? then m.result == Ok(state.Value()) else m.result == Err(error.value))
  {
    var pushed := state.PushWorkspace(name, cwd, None);
    if pushed.Refused? || pushed.id.None? { return Some(IdsExhausted); }
    var added := state.AddTerminal(pushed.id.value, terminal, Shell, source);
    if added.Refused? { return Some(if added.error == IdentityError then EntropyFailed else IdsExhausted); }
    return None;
  }

  method TryFirstRun(cwd: Option<string>, source: IdentitySource) returns (r: Result<Project, LoadError>)
    modifies source
    ensures Migrated(r, source.position) == FirstRun(cwd, source.draws, old(source.position))
  {
    var base := TryDefault(source);
    if base.Err? { return base; }
    var state := new ProjectState.FromDecoded(base.value);
    var error := Seed(state, "mult", cwd, "dev server", source);
    if error.Some? { return Err(error.value); }
    error := Seed(state, "website", None, "shell", source);
    if error.Some? { return Err(error.value); }
    var seeded := state.ToProject();
    return Ok(seeded);
  }

  method MigrateV1(decoded: StateV1, source: IdentitySource) returns (r: Result<Project, LoadError>)
    modifies source
    ensures Migrated(r, source.position) == MigrateV1ToCurrent(decoded, source.draws, old(source.position))
  {
    var namespace := GenerateIdentity(source, {});
    if namespace.None? { return Err(EntropyFailed); }
    r := MigrateV3(
      MigrateV2ToV3(StateV2(namespace.value, map[], map[], map[],
                            decoded.nextWorkspace, decoded.nextChat, decoded.nextTerminal, decoded.workspaces)),
      source);
  }

  /** The projects a load makes anew: every case but an up-to-date or an unknown version. */
  method MakeAnew(decoded: Decoded, source: IdentitySource) returns (r: Result<Project, LoadError>)
    requires !decoded.Current? && !decoded.Unsupported?
    modifies source
    ensures LoadDecoded(decoded, source.draws, old(source.position))
            == FreshlyMade(Migrated(r, source.position), decoded.InvalidJson?)
  {
    match decoded
    case V1(v1) => r := MigrateV1(v1, source);
    case V2(v2) => r := MigrateV3(MigrateV2ToV3(v2), source);
    case V3(v3) => r := MigrateV3(v3, source);
    case InvalidJson => r := TryDefault(source);
  }

  method LoadFile(file: Option<seq<byte>>, codec: Codec, cwd: Option<string>, source: IdentitySource)
    returns (r: Result<Loaded, LoadError>)
    modifies source
    ensures LoadResult(r, source.position) == Load(file, codec, cwd, source.draws, old(source.position))
  {
    var made;
    if file.None? {
      made := TryFirstRun(cwd, source);
      return if made.Ok? then Ok(Loaded(made.value, true, false)) else Err(made.error);
    }
    if |file.value| > MAX_STATE_FILE_BYTES { return Err(Oversized); }
    var decoded := codec.decode(file.value);
    if decoded.Unsupported? { return Err(UnsupportedVersion(decoded.version)); }
    if decoded.Current? {
      r := LoadV4OrV5(decoded.project, source);
      return;
    }
    made := MakeAnew(decoded, source);
    return if made.Ok? then Ok(Loaded(made.value, true, decoded.InvalidJson?)) else Err(made.error);
  }

  // ---- the store ------------------------------------------------------------

  datatype SaveResult = SaveInvalid | SaveDone(outcome: SaveOutcome)

  class Store {
    const directory: Directory
    const codec: Codec
    const stateName: string

    constructor (directory: Directory, codec: Codec, stateName: string)
      ensures this.directory == directory && this.codec == codec && this.stateName == stateName
    {
      this.directory, this.codec, this.stateName := directory, codec, stateName;
    }

    /** Only an accepted current project is written; the directory is never in a state between. */
    method Save(p: Project) returns (r: SaveResult)
      modifies directory
      ensures r == SaveInvalid <==> p.version != STATE_VERSION || Validate(p).Some?
      ensures r == SaveInvalid ==>
                directory.entries == old(directory.entries) && directory.history == old(directory.history)
      ensures r == SaveDone(Saved) ==>
                At(directory.entries, stateName) == Some(Entry(FileContents(codec, p), true))
      ensures |old(directory.history)| <= |directory.history|
      ensures AllViews(old(directory.entries), directory.history[|old(directory.history)|..],
                       stateName, FileContents(codec, p))
      ensures SaveView(old(directory.entries), directory.entries, stateName, FileContents(codec, p))
    {
      if p.version != STATE_VERSION || Validate(p).Some? { return SaveInvalid; }
      var outcome := SaveToDirectory(directory, stateName, FileContents(codec, p));
      return SaveDone(outcome);
    }

    /**
    Load as the client does. An undecodable file is moved aside only once its
    replacement exists, so entropy failure leaves the directory untouched; and
    however moving it goes, its bytes are at every step under one name.
    */
    method LoadWithIdentitySource(cwd: Option<string>, source: IdentitySource)
      returns (r: Result<Loaded, LoadError>)
      modifies directory, source
      ensures |old(directory.history)| <= |directory.history|
      ensures forall i :: |old(directory.history)| <= i < |directory.history| ==>
                BackupView(old(directory.entries), directory.history[i], stateName)
      ensures BackupView(old(directory.entries), directory.entries, stateName)
      ensures var before := old(directory.entries);
              var file := if stateName in before then Some(before[stateName].bytes) else None;
              var wanted := Load(file, codec, cwd, source.draws, old(source.position));
              && source.position == wanted.position
              && (r == wanted.result || r == Err(DirectoryFailed))
              && (!(file.Some? && |file.value| <= MAX_STATE_FILE_BYTES && codec.decode(file.value).InvalidJson?
                    && wanted.result.Ok?)
                  ==> r == wanted.result && directory.entries == old(directory.entries))
              && (r.Ok? && r.value.movedAside ==>
                    exists backup :: && backup !in old(directory.entries)
                                     && directory.entries == (old(directory.entries) - {stateName})
                                                             [backup := old(directory.entries)[stateName]])
    {
      var file := if stateName in directory.entries then Some(directory.entries[stateName].bytes) else None;
      var loaded := LoadFile(file, codec, cwd, source);
      if loaded.Err? || !loaded.value.movedAside { return loaded; }
      var outcome := BackupInvalidState(directory, stateName);
      if !outcome.MovedTo? { return Err(DirectoryFailed); }
      return loaded;
    }
  }
}

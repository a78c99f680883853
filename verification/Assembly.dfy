/**
  Builds an agent's tool set from every source it has, for one surface under one policy,
  claiming each name as it goes.
 */
module Assemblies {
  import opened Wrappers
  import opened Toolkit
  import opened NameOrder
  import opened ToolLists
  import opened BuiltinTools
  import opened ImportedTools
  import opened CustomTools
  import opened AssemblyPlans
  import opened AssemblyReports
  import opened ImportReports
  import RemoteTools
  import McpClient

  method CompileFilters(cfg: Config, surface: Surface) returns (filters: seq<Filter>, failure: Option<Failure>)
    ensures failure.None? <==> FiltersCompile(cfg, surface)
    ensures failure.None? ==> filters == FiltersOf(cfg, surface)
    ensures BadFilterIsNamed(cfg, surface, failure)
  {
    filters := [];
    var specs := FilterSpecs(cfg, surface);
    for i := 0 to |specs|
      invariant |filters| == i
      invariant forall j :: 0 <= j < i ==> specs[j].1 == Ok(filters[j])
    {
      match specs[i].1 {
        case Err(_) =>
          FirstBadFilter(cfg, surface, i);
          return [], Some(BadFilter(specs[i].0));
        case Ok(f) => filters := filters + [f];
      }
    }
    NoBadFilter(cfg, surface);
    return filters, None;
  }

  class Assembly {
    var tools: seq<Assembled>
    var problems: seq<Problem>
    var withheld: seq<Withheld>
    var remoteRows: seq<Outcome>
    var mcpRows: seq<Outcome>
    var filters: seq<Filter>
    var claimed: set<string>
    var remote: map<string, Tool>

    constructor ()
      ensures tools == [] && problems == [] && withheld == [] && remoteRows == [] && mcpRows == []
      ensures filters == [] && claimed == {} && remote == map[]
    {
      tools, problems, withheld, remoteRows, mcpRows := [], [], [], [], [];
      filters, claimed, remote := [], {}, map[];
    }

    /** Appends one tool and claims its name, which the remote map does for a remote one. */
    method Add(t: Tool, kind: Kind, source: Source)
      modifies this`tools, this`claimed
      ensures tools == old(tools) + [Assembled(t, kind, source)]
      ensures claimed == if kind == Remote then old(claimed) else old(claimed) + {t.name}
    {
      tools := tools + [Assembled(t, kind, source)];
      if kind != Remote {
        claimed := claimed + {t.name};
      }
    }

    method AddEach(ts: seq<Tool>, kind: Kind, source: Source)
      modifies this`tools, this`claimed
      ensures tools == old(tools) + AsKind(ts, kind, source)
      ensures claimed == if kind == Remote then old(claimed) else old(claimed) + NamesIn(ts)
    {
      for i := 0 to |ts|
        invariant tools == old(tools) + AsKind(ts[..i], kind, source)
        invariant claimed == if kind == Remote then old(claimed) else old(claimed) + NamesIn(ts[..i])
      {
        assert ts[..i + 1] == ts[..i] + [ts[i]];
        Add(ts[i], kind, source);
      }
      assert ts[..|ts|] == ts;
    }

    /** Adds the commands the filters keep; a command they remove claims no name. */
    method AddCommands(commands: seq<Tool>)
      requires tools == [] && claimed == {}
      modifies this`tools, this`claimed
      ensures tools == AsKind(Kept(filters, commands), Application, FromApplication)
      ensures claimed == NamesIn(Kept(filters, commands))
      ensures Sound(filters, tools, claimed, |tools|) && UpTo(tools, Builtin) && RemoteNames(tools) == {}
    {
      hide Sound, UpTo, RemoteNames, KeptBy;
      for i := 0 to |commands|
        invariant tools == AsKind(Kept(filters, commands[..i]), Application, FromApplication)
        invariant claimed == NamesIn(Kept(filters, commands[..i]))
      {
        assert commands[..i + 1][..i] == commands[..i];
        if !KeptBy(filters, commands[i]) {
          continue;
        }
        Add(commands[i], Application, FromApplication);
      }
      assert commands[..|commands|] == commands;
      CommandsAreSound(filters, commands);
    }

    /** Adds a built-in the surface serves, or records why it is withheld. */
    method AddBuiltin(t: Tool, source: Source, ready: bool, surface: Surface) returns (failure: Option<Failure>)
      modifies this`tools, this`claimed, this`withheld
      ensures failure.None? <==>
              (Served(filters, surface, t) ==> (surface.ForRun? || ready) && t.name !in old(claimed))
      ensures failure.Some? ==>
                unchanged(this) &&
                failure.value == if surface.ForRun? || ready then BuiltinClash(t.name) else StoreMissing(t.name)
      ensures failure.None? ==>
                && tools == old(tools) + (if Served(filters, surface, t) then [Assembled(t, Builtin, source)] else [])
                && claimed == old(claimed) + (if Served(filters, surface, t) then {t.name} else {})
                && withheld == old(withheld) +
                     (if surface.ForRun? || Served(filters, surface, t) then []
                      else [Withheld(t.name, if WithheldReason(t, surface).Some? then AgentOnly else Filtered)])
    {
      var reason := WithheldReason(t, surface);
      if reason.Some? {
        withheld := withheld + [Withheld(t.name, reason.value)];
        return None;
      }
      if !KeptBy(filters, t) {
        if surface != ForRun {
          withheld := withheld + [Withheld(t.name, Filtered)];
        }
        return None;
      }
      if surface != ForRun && !ready {
        return Some(StoreMissing(t.name));
      }
      if t.name in claimed {
        return Some(BuiltinClash(t.name));
      }
      Add(t, Builtin, source);
      return None;
    }

    /** Adds the built-ins the surface serves, recording the rest; it stops at the first that does not fit. */
    method AddBuiltins(families: seq<Family>, surface: Surface)
      returns (failure: Option<Failure>, ghost part: seq<Entry>)
      modifies this`tools, this`claimed, this`withheld
      ensures failure.None? <==> BuiltinsFit(filters, surface, old(claimed), Entries(families))
      ensures failure.Some? ==> BuiltinFails(filters, surface, Entries(families), failure.value)
      ensures failure.None? ==> part == Entries(families)
      ensures failure.None? ==> withheld == old(withheld) + WithheldRows(filters, surface, part)
      ensures tools == old(tools) + ServedRows(filters, surface, part)
      ensures claimed == old(claimed) + Names(ServedRows(filters, surface, part))
      ensures BuiltinsFit(filters, surface, old(claimed), part)
    {
      hide BuiltinsFit, WithheldRows, ServedRows, Served, WithheldReason, Names;
      part := [];
      assert BuiltinsFit(filters, surface, claimed, []) && ServedRows(filters, surface, []) == []
          && WithheldRows(filters, surface, []) == [] && Names([]) == {} by { NothingToFit(filters, surface, claimed); }
      for i := 0 to |families|
        invariant part == Entries(families[..i])
        invariant tools == old(tools) + ServedRows(filters, surface, part)
        invariant claimed == old(claimed) + Names(ServedRows(filters, surface, part))
        invariant withheld == old(withheld) + WithheldRows(filters, surface, part)
        invariant BuiltinsFit(filters, surface, old(claimed), part)
      {
        var family := families[i];
        for j := 0 to |family.tools|
          invariant part == Entries(families[..i]) + FamilyEntries(family)[..j]
          invariant tools == old(tools) + ServedRows(filters, surface, part)
          invariant claimed == old(claimed) + Names(ServedRows(filters, surface, part))
          invariant withheld == old(withheld) + WithheldRows(filters, surface, part)
          invariant BuiltinsFit(filters, surface, old(claimed), part)
        {
          ghost var e := FamilyEntries(family)[j];
          OneMoreEntry(filters, surface, old(claimed), part, e);
          assert FamilyEntries(family)[..j + 1] == FamilyEntries(family)[..j] + [e];
          assert Entries(families[..i]) + FamilyEntries(family)[..j + 1] == part + [e];
          failure := AddBuiltin(family.tools[j], family.source, family.ready, surface);
          if failure.Some? {
            NoneFitPast(filters, surface, old(claimed), families, i, j);
            EntryIsThere(families, i, j);
            return;
          }
          part := part + [e];
        }
        assert families[..i + 1][..i] == families[..i];
        assert FamilyEntries(family)[..|family.tools|] == FamilyEntries(family);
      }
      assert families[..|families|] == families;
      failure := None;
    }

    /** What every surface starts from: the commands, then the built-ins. */
    method AddBase(cfg: Config, src: Sources, surface: Surface) returns (failure: Option<Failure>)
      requires tools == [] && claimed == {} && withheld == []
      modifies this`tools, this`claimed, this`withheld
      ensures cfg.commands.Ok? ==> Sound(filters, tools, claimed, |Kept(filters, cfg.commands.value)|)
      ensures cfg.commands.Err? ==> tools == [] && failure == Some(NotIntrospected(cfg.commands.error))
      ensures UpTo(tools, Builtin) && RemoteNames(tools) == {}
      ensures failure.None? <==>
              && cfg.commands.Ok? && cfg.harness.Ok?
              && BuiltinsFit(filters, surface, NamesIn(Kept(filters, cfg.commands.value)), Entries(Families(cfg, src)))
      ensures failure.None? ==>
                && tools == Base(filters, cfg.commands.value, surface, Entries(Families(cfg, src)))
                && withheld == WithheldRows(filters, surface, Entries(Families(cfg, src)))
    {
      hide Sound, UpTo, RemoteNames, Names, NamesIn, Kept, KeptBy, BuiltinsFit, ServedRows, WithheldRows, Entries,
        BuiltinFails;
      assert UpTo([], Builtin) && RemoteNames([]) == {} by { NothingAssembled(); }
      if cfg.commands.Err? {
        return Some(NotIntrospected(cfg.commands.error));
      }
      AddCommands(cfg.commands.value);
      if cfg.harness.Err? {
        return Some(BadOption(cfg.harness.error));
      }
      ghost var part;
      ghost var commands, had := tools, claimed;
      failure, part := AddBuiltins(Families(cfg, src), surface);
      BuiltinsJoin(filters, commands, had, |commands|, surface, part);
    }

    function HasProblem(block: Block, alias: string): (r: bool)
      reads this`problems
      ensures r <==> HasProblemIn(problems, block, alias)
    {
      HasProblemIn(problems, block, alias)
    }

    /** Adds what each importer returned, or the problem it ran into. */
    method AddOutcomes(outcomes: seq<Outcome>, kind: Kind, block: Block)
      modifies this`tools, this`claimed, this`problems
      ensures tools == old(tools) + AnsweredRows(outcomes, kind)
      ensures claimed == if kind == Remote then old(claimed) else old(claimed) + NamesIn(Answered(outcomes))
      ensures problems == old(problems) + FailedRows(outcomes, block)
    {
      hide AnsweredRows, Answered, FailedRows, NamesIn;
      NoOutcomes(kind, block);
      for i := 0 to |outcomes|
        invariant tools == old(tools) + AnsweredRows(outcomes[..i], kind)
        invariant claimed == if kind == Remote then old(claimed) else old(claimed) + NamesIn(Answered(outcomes[..i]))
        invariant problems == old(problems) + FailedRows(outcomes[..i], block)
      {
        OneMoreOutcome(outcomes, i, kind, block);
        var o := outcomes[i];
        if o.failure.Some? {
          problems := problems + [Problem(block, o.name, o.failure.value)];
          continue;
        }
        AddEach(o.tools, kind, o.source);
      }
      assert outcomes[..|outcomes|] == outcomes;
    }

    /** Imports every configured host through the client; with no client that is one failed source. */
    method ImportRemote(hosts: seq<RemoteTools.Host>, client: Option<Client>, policy: Policy, ghost k: nat)
      returns (failure: Option<Failure>)
      requires Sound(filters, tools, claimed, k) && UpTo(tools, Builtin) && remote == map[] && remoteRows == []
      modifies this`tools, this`claimed, this`problems, this`remoteRows, this`remote
      ensures Sound(filters, tools, claimed, k) && UpTo(tools, Remote)
      ensures failure.None? <==> policy.Lenient? || RemoteImports(old(Names(tools)), hosts, client, old(problems))
      ensures failure.None? ==>
                && remoteRows == RemoteOutcomes(filters, old(Names(tools)), hosts, client)
                && tools == old(tools) + AnsweredRows(remoteRows, Remote)
                && problems == RemoteProblems(filters, old(Names(tools)), hosts, client, old(problems))
                && RemoteNames(tools) == remote.Keys
      ensures failure.Some? ==> tools == old(tools)
      ensures failure.Some? ==> if client.Some? then failure.value.HostsFailed? else failure.value == ClientMissing
      ensures policy.Strict? && failure.None? && client.Some? ==> NoneFailed(remoteRows)
    {
      hide Sound, UpTo, RemoteNames, HostsImport, HasProblemIn;
      NoRemoteYet(tools);
      NoOutcomes(Remote, RemoteBlock);
      assert tools + [] == tools;
      if hosts == [] {
        return None;
      }
      if client.None? {
        if HasProblem(RemoteBlock, "") {
          return None;
        }
        if policy == Strict {
          return Some(ClientMissing);
        }
        problems := problems + [Problem(RemoteBlock, "", ClientMissing)];
        return None;
      }
      failure := ImportHosts(hosts, client.value, policy, k);
    }

    method ImportHosts(hosts: seq<RemoteTools.Host>, client: Client, policy: Policy, ghost k: nat)
      returns (failure: Option<Failure>)
      requires Sound(filters, tools, claimed, k) && UpTo(tools, Remote) && RemoteNames(tools) == {} && hosts != []
      modifies this`tools, this`claimed, this`problems, this`remoteRows, this`remote
      ensures Sound(filters, tools, claimed, k) && UpTo(tools, Remote)
      ensures failure.None? <==> policy.Lenient? || HostsImport(old(Names(tools)), hosts, client)
      ensures remoteRows == RemoteOutcomes(filters, old(Names(tools)), hosts, Some(client))
      ensures failure.None? ==>
                && tools == old(tools) + AnsweredRows(remoteRows, Remote)
                && problems == old(problems) + FailedRows(remoteRows, RemoteBlock)
                && RemoteNames(tools) == remote.Keys
      ensures failure.Some? ==> failure.value.HostsFailed? && tools == old(tools)
      ensures policy.Strict? && failure.None? ==> NoneFailed(remoteRows)
    {
      hide Sound, UpTo, RemoteNames, Names, NamesIn, DistinctNames, KeptBy, Kept, AnsweredRows, Answered, FailedRows,
        Joins, NoneFailed, RemoteTools.AnyClash, RemoteTools.Indexes, RemoteTools.AllTools, RemoteTools.Offers,
        RemoteTools.BareNames, RemoteTools.FinalNames, RemoteTools.Resolved;
      NamesAreClaimed(filters, tools, claimed, k);
      assert claimed + {} == claimed == Names(tools);
      var asked := Asked(hosts, client);
      var rows, byName, err := RemoteTools.ImportHosts(claimed, asked);
      ghost var imported := RemoteTools.AllTools(rows);
      remoteRows := HostOutcomes(filters, rows);
      remote := map n | n in byName && KeptBy(filters, byName[n]) :: byName[n];
      FailedHostsAreEmpty(claimed, asked);
      AnsweredHosts(filters, rows);
      RemoteKeys(filters, byName, remote, imported);
      assert err.None? <==> HostsImport(claimed, hosts, client) by { SameAsAsked(hosts, client); }
      if err.Some? && policy == Strict {
        return Some(HostsFailed(err.value));
      }
      if HostsImport(claimed, hosts, client) {
        StrictHostsAllAnswer(filters, claimed, hosts, Some(client));
      }
      ImportsJoin(filters, tools, remoteRows, Remote, imported);
      MoreStaysSound(filters, tools, claimed, k, AnsweredRows(remoteRows, Remote), Remote);
      AddOutcomes(remoteRows, Remote, RemoteBlock);
      return None;
    }

    /** One row a configured server: what a session returned, else the first problem recorded for it. */
    method McpRows(servers: seq<McpClient.Server>, imported: map<string, Outcome>) returns (rows: seq<Outcome>)
      ensures rows == McpRowsOf(servers, imported, problems)
    {
      rows := [];
      for i := 0 to |servers|
        invariant |rows| == i && forall m :: 0 <= m < i ==> rows[m] == RowFor(servers[m], imported, problems)
      {
        var server := servers[i];
        if server.name in imported {
          rows := rows + [imported[server.name]];
          continue;
        }
        var row := Outcome(server.name, FromServer(McpClient.Alias(server)), None, []);
        assert problems[0..] == problems;
        for j := 0 to |problems|
          invariant row.failure.None? && row.(failure := FirstProblem(problems[j..], server.name)) ==
                    RowFor(server, imported, problems)
        {
          assert problems[j..][1..] == problems[j + 1..];
          if problems[j].block.McpBlock? && (problems[j].alias == server.name || problems[j].alias == "") {
            row := row.(failure := Some(problems[j].failure));
            break;
          }
        }
        rows := rows + [row];
      }
    }

    /** Imports the servers one session holds, recording each outcome and adding the tools that are kept. */
    method ImportSession(listings: seq<McpClient.Listing>, imported: map<string, Outcome>, policy: Policy, ghost k: nat)
      returns (more: map<string, Outcome>, failure: Option<Failure>)
      requires Sound(filters, tools, claimed, k) && UpTo(tools, MCP) && RemoteNames(tools) == remote.Keys
      modifies this`tools, this`claimed, this`problems
      ensures Sound(filters, tools, claimed, k) && UpTo(tools, MCP) && RemoteNames(tools) == remote.Keys
      ensures failure.None? <==> policy.Lenient? || McpClient.Imports(listings, old(Names(tools)))
      ensures failure.None? ==>
                Progress(tools, more, problems) ==
                AfterSession(filters, Progress(old(tools), imported, old(problems)), listings)
      ensures failure.Some? ==>
                tools == old(tools) && problems == old(problems) &&
                SessionFails(listings, old(Names(tools)), failure.value)
    {
      hide Sound, UpTo, RemoteNames, Names, NamesIn, DistinctNames, KeptBy, Kept, AnsweredRows, Answered, FailedRows,
        Joins, McpClient.AnyCollides, McpClient.AllTools, McpClient.Rows, McpClient.Imports, SessionFails, RecordAll;
      ghost var held := Names(tools);
      NamesAreClaimed(filters, tools, claimed, k);
      assert claimed + remote.Keys == held;
      var rows, err := McpClient.Import(listings, claimed + remote.Keys);
      McpClient.RowsAreNew(listings, held);
      var outcomes := ServerOutcomes(filters, rows);
      AnsweredServers(filters, rows);
      more := RecordOutcomes(imported, outcomes);
      if err.Some? && policy == Strict {
        FailsAsReported(listings, held, err.value);
        return more, Some(ServersFailed(err.value));
      }
      ImportsJoin(filters, tools, outcomes, MCP, McpClient.AllTools(rows));
      MoreStaysSound(filters, tools, claimed, k, AnsweredRows(outcomes, MCP), MCP);
      AnsweredAreTheRows(outcomes, MCP);
      AddOutcomes(outcomes, MCP, McpBlock);
      return more, None;
    }

    method RecordOutcomes(imported: map<string, Outcome>, outcomes: seq<Outcome>) returns (more: map<string, Outcome>)
      ensures more == RecordAll(imported, outcomes)
    {
      more := imported;
      for i := 0 to |outcomes|
        invariant more == RecordAll(imported, outcomes[..i])
      {
        assert outcomes[..i + 1][..i] == outcomes[..i];
        more := more[outcomes[i].name := outcomes[i]];
      }
      assert outcomes[..|outcomes|] == outcomes;
    }

    /** Imports the sessions in order, then accounts for every configured server. */
    method ImportMcp(servers: seq<McpClient.Server>, sessions: Sessions, policy: Policy, ghost k: nat)
      returns (failure: Option<Failure>)
      requires SessionsDistinct(sessions) && mcpRows == []
      requires Sound(filters, tools, claimed, k) && UpTo(tools, Remote) && RemoteNames(tools) == remote.Keys
      modifies this`tools, this`claimed, this`problems, this`mcpRows
      ensures Sound(filters, tools, claimed, k) && UpTo(tools, MCP) && RemoteNames(tools) == remote.Keys
      ensures var p := Progress(old(tools), map[], old(problems));
              && (failure.None? <==> policy.Lenient? || McpImports(filters, p, servers, sessions))
              && (failure.None? ==> McpDone(filters, p, servers, sessions, tools, mcpRows, problems))
              && (failure.Some? ==>
                    || FirstSessionFails(filters, p, sessions, failure.value)
                    || (AllSessionsImport(filters, p, sessions) &&
                        var q := AfterSessions(filters, p, sessions); MissingFrom(servers, q.imported, q.problems, failure.value)))
      ensures failure.None? ==> RowsCover(servers, sessions, tools, mcpRows)
      ensures policy.Strict? && failure.None? && old(problems) == [] ==> problems == [] && NoneFailed(mcpRows)
    {
      hide Sound, RemoteNames, RowsCover, FirstProblem, SessionFails, MissingFrom, FirstSessionFails, SessionImports,
        AfterSessions, AfterSession, WithMissing, Accounted, NoneFailed, ImportedHeld, NoneImportedFailed, SessionsDistinct,
        RowFor;
      assert UpTo(tools, MCP) by { RemoteComesFirst(tools); }
      if servers == [] {
        NoServersNoRows(sessions, tools);
        return None;
      }
      var imported: map<string, Outcome> := map[];
      ghost var p := Progress(tools, map[], problems);
      AfterNone(filters, p, sessions);
      for s := 0 to |sessions|
        invariant Sound(filters, tools, claimed, k) && UpTo(tools, MCP) && RemoteNames(tools) == remote.Keys
        invariant Progress(tools, imported, problems) == AfterSessions(filters, p, sessions[..s])
        invariant policy.Strict? ==> forall r :: 0 <= r < s ==> SessionImports(filters, p, sessions, r)
      {
        AfterOneMore(filters, p, sessions, s);
        if sessions[s].None? {
          continue;
        }
        imported, failure := ImportSession(sessions[s].value, imported, policy, k);
        if failure.Some? {
          StopsHere(filters, p, sessions, s, failure.value);
          mcpRows := McpRows(servers, imported);
          return;
        }
      }
      assert sessions[..|sessions|] == sessions;
      SessionsHold(filters, p, sessions, |sessions|);
      ghost var q := AfterSessions(filters, p, sessions);
      WithMissingAccounts(servers, q.imported, q.problems);
      failure := MissingSessions(servers, imported, policy);
      mcpRows := McpRows(servers, imported);
      if failure.None? {
        AllAccountedFor(servers, sessions, tools, imported, problems);
      }
      if policy.Strict? {
        SessionsLeaveNoProblem(filters, p, sessions, |sessions|);
      }
    }

    /** A configured server no session held, and no problem explains, is a failed source. */
    method MissingSessions(servers: seq<McpClient.Server>, imported: map<string, Outcome>, policy: Policy)
      returns (failure: Option<Failure>)
      modifies this`problems
      ensures failure.None? <==> policy.Lenient? || AllAccounted(servers, imported, old(problems))
      ensures failure.None? ==> problems == WithMissing(servers, imported, old(problems))
      ensures failure.Some? ==> problems == old(problems) && MissingFrom(servers, imported, problems, failure.value)
    {
      hide HasProblemIn;
      for i := 0 to |servers|
        invariant problems == WithMissing(servers[..i], imported, old(problems))
        invariant policy.Strict? ==>
                    problems == old(problems) && forall m :: 0 <= m < i ==> Accounted(servers[m].name, imported, problems)
      {
        assert servers[..i + 1][..i] == servers[..i];
        var name := servers[i].name;
        if name in imported || HasProblem(McpBlock, name) || HasProblem(McpBlock, "") {
          continue;
        }
        if policy == Strict {
          return Some(SessionMissing(name));
        }
        problems := problems + [Problem(McpBlock, name, SessionMissing(name))];
      }
      assert servers[..|servers|] == servers;
      return None;
    }

    /** What only a run has: the remote imports, the MCP imports, then the caller's own tools. */
    method AddRunTools(cfg: Config, src: Sources, policy: Policy, ghost k: nat)
      returns (failure: Option<Failure>, ghost added: seq<Tool>)
      requires SessionsDistinct(src.mcp)
      requires Sound(filters, tools, claimed, k) && UpTo(tools, Builtin)
      requires remote == map[] && remoteRows == [] && mcpRows == []
      modifies this`tools, this`claimed, this`problems, this`remoteRows, this`remote, this`mcpRows
      ensures Sound(filters, tools, claimed, k)
      ensures var plan := RunPlan(filters, old(tools), cfg, src, old(problems));
              && (failure.None? <==>
                  && (policy.Lenient? || RunImports(filters, old(tools), cfg, src, old(problems)))
                  && CustomOk(filters, plan.rows, RemoteNames(plan.rows), src.custom))
              && (failure.None? ==>
                  && tools == plan.rows + AsKind(added, Custom, FromCustom) && CustomSorted(filters, src.custom, added)
                  && remoteRows == plan.remoteRows && mcpRows == plan.mcpRows && problems == plan.problems
                  && RemoteNames(tools) == remote.Keys && RowsCover(cfg.servers, src.mcp, tools, mcpRows))
      ensures policy.Strict? && failure.None? && old(problems) == [] ==>
                problems == [] && NoneFailed(remoteRows) && NoneFailed(mcpRows)
    {
      hide Sound, RemoteNames, RowsCover, CustomSorted, CustomOk, NoneFailed, AnsweredRows, AfterSessions, McpImports,
        FirstSessionFails, MissingFrom, WithMissing, HostsImport, RemoteOutcomes, SessionsDistinct, McpRowsOf, Names,
        AllSessionsImport;
      added := [];
      ghost var names := Names(tools);
      failure := ImportRemote(cfg.hosts, src.remote, policy, k);
      if failure.Some? {
        return;
      }
      StrictRemote(filters, names, cfg.hosts, src.remote, problems, old(problems), policy);
      failure := ImportMcp(cfg.servers, src.mcp, policy, k);
      if failure.Some? {
        return;
      }
      ghost var before := tools;
      failure, added := AddCustom(src.custom, k);
      if failure.None? {
        CoverInMore(cfg.servers, src.mcp, before, AsKind(added, Custom, FromCustom), mcpRows);
      }
    }

    /** The tools of the given kinds, in assembly order. */
    method OfKinds(kinds: set<Kind>) returns (view: seq<Tool>)
      ensures view == View(tools, kinds)
    {
      view := [];
      for i := 0 to |tools|
        invariant view == View(tools[..i], kinds)
      {
        assert tools[..i + 1][..i] == tools[..i];
        if tools[i].kind in kinds {
          view := view + [tools[i].tool];
        }
      }
      assert tools[..|tools|] == tools;
    }

    method Builtins() returns (view: seq<Tool>)
      ensures view == View(tools, {Builtin})
    {
      view := OfKinds({Builtin});
    }

    method BeforeMcp() returns (view: seq<Tool>)
      ensures view == View(tools, {Application, Remote})
    {
      view := OfKinds({Application, Remote});
    }

    method McpTools() returns (view: seq<Tool>)
      ensures view == View(tools, {MCP})
    {
      view := OfKinds({MCP});
    }

    method AfterMcp() returns (view: seq<Tool>)
      ensures view == View(tools, {Custom})
    {
      view := OfKinds({Custom});
    }

    /** The kind of the assembled tool of this name, Unknown when no tool holds it. */
    function KindOf(name: string): (k: Kind)
      reads this`tools
      ensures name !in Names(tools) ==> k == Unknown
      ensures name in Names(tools) ==> exists i :: 0 <= i < |tools| && tools[i].tool.name == name && tools[i].kind == k
    {
      KindIn(tools, name)
    }

    /** Checks the custom tools in the order given, then adds the kept ones sorted by name. */
    method AddCustom(custom: seq<Option<Tool>>, ghost k: nat) returns (failure: Option<Failure>, ghost added: seq<Tool>)
      requires Sound(filters, tools, claimed, k) && UpTo(tools, MCP) && RemoteNames(tools) == remote.Keys
      modifies this`tools, this`claimed
      ensures failure.None? <==> CustomOk(filters, old(tools), remote.Keys, custom)
      ensures failure.Some? ==> tools == old(tools) && claimed == old(claimed) && added == []
      ensures failure.Some? ==>
                exists i :: 0 <= i < |custom| && CustomOk(filters, tools, remote.Keys, custom[..i]) &&
                            RefusedFor(filters, tools, remote.Keys, custom, i, failure.value)
      ensures failure.None? ==> CustomSorted(filters, custom, added) && tools == old(tools) + AsKind(added, Custom, FromCustom)
      ensures Sound(filters, tools, claimed, k) && RemoteNames(tools) == remote.Keys
    {
      hide Sound, KeptBy, UpTo, Names, RemoteNames, CustomOk, CustomTakes, ByName, CustomSorted, Ascending, NameList, Refusal,
        RefusedFor;
      var byName: map<string, Tool> := map[];
      added := [];
      assert CustomOk(filters, tools, remote.Keys, []) && ByName(filters, [], map[]) by {
        NoCustom(filters, tools, remote.Keys);
      }
      for i := 0 to |custom|
        invariant CustomOk(filters, tools, remote.Keys, custom[..i]) && ByName(filters, custom[..i], byName)
        invariant tools == old(tools) && claimed == old(claimed)
      {
        assert custom[..i + 1] == custom[..i] + [custom[i]];
        ByNameOneMore(filters, tools, remote.Keys, custom[..i], custom[i], byName);
        failure := CheckCustom(custom[i], i, byName, k);
        if failure.Some? {
          RefusedByName(filters, tools, remote.Keys, custom, i, byName, failure.value);
          if CustomOk(filters, tools, remote.Keys, custom) {
            CustomOkInPart(filters, tools, remote.Keys, custom, i + 1);
          }
          return;
        }
        if KeptBy(filters, custom[i].value) {
          byName := byName[custom[i].value.name := custom[i].value];
        }
      }
      assert custom[..|custom|] == custom;
      var names := SortNames(byName.Keys);
      LookedAreSorted(filters, custom, byName, names);
      added := Looked(byName, names);
      SortedJoins(filters, tools, remote.Keys, custom, added);
      assert UpTo(tools, Custom) by { CustomComesLast(tools); }
      MoreStaysSound(filters, tools, claimed, k, AsKind(added, Custom, FromCustom), Custom);
      ghost var before, had := tools, claimed;
      assert before + AsKind([], Custom, FromCustom) == before && had + Names([]) == had by { NoNames(); }
      for i := 0 to |names|
        invariant tools == before + AsKind(Looked(byName, names[..i]), Custom, FromCustom)
        invariant claimed == had + Names(AsKind(Looked(byName, names[..i]), Custom, FromCustom))
      {
        OneMoreCustom(byName, names, i);
        Add(byName[names[i]], Custom, FromCustom);
      }
      assert names[..|names|] == names;
      return None, added;
    }

    /** Why a custom tool is refused, the checks in their order. */
    method CheckCustom(c: Option<Tool>, i: nat, byName: map<string, Tool>, ghost k: nat) returns (failure: Option<Failure>)
      requires Sound(filters, tools, claimed, k) && UpTo(tools, MCP) && RemoteNames(tools) == remote.Keys
      ensures failure.None? <==> CustomTakes(filters, tools, remote.Keys, c) &&
                                 (IsKeptCustom(filters, c) ==> c.value.name !in byName)
      ensures failure.None? ==> c.Some?
      ensures failure.Some? ==> Refusal(filters, tools, remote.Keys, byName.Keys, c, i, failure.value)
    {
      if c.None? {
        return Some(NilCustom(i));
      }
      var t := c.value;
      if t.name == "" {
        return Some(UnnamedCustom(i));
      }
      if !KeptBy(filters, t) {
        return None;
      }
      if t.definition != t.name {
        return Some(MisnamedCustom(t.name, t.definition));
      }
      if t.name in byName {
        return Some(DuplicateCustom(i, t.name));
      }
      if t.name in remote {
        return Some(ShadowingCustom(i, t.name, Remote));
      }
      match KindOf(t.name) {
        case Application => return Some(ShadowingCustom(i, t.name, Application));
        case Builtin => return Some(ShadowingCustom(i, t.name, Builtin));
        case MCP => return Some(ShadowingCustom(i, t.name, MCP));
        case _ =>
      }
      match t.declares {
        case Some(Remote) => return Some(MisdeclaredCustom(t.name, Remote));
        case Some(MCP) => return Some(MisdeclaredCustom(t.name, MCP));
        case _ =>
      }
      return None;
    }
  }

  /**
    Assembles the tools of every source the surface has: commands, built-ins, then on a run
    the remote imports, the MCP imports and the caller's own.
   */
  method Assemble(cfg: Config, src: Sources, surface: Surface, policy: Policy)
    returns (a: Assembly, failure: Option<Failure>)
    requires SessionsDistinct(src.mcp)
    ensures fresh(a)
    ensures failure.None? <==> Succeeds(cfg, src, surface, policy)
    ensures failure.None? ==>
              && AssemblesTo(cfg, src, surface, a.tools) && a.filters == FiltersOf(cfg, surface)
              && a.withheld == WithheldRows(a.filters, surface, Entries(Families(cfg, src)))
              && RemoteNames(a.tools) == a.remote.Keys
    ensures failure.None? ==> AsConfigured(cfg, src, surface, a.filters, a.tools, a.withheld)
    ensures failure.None? && surface.ForRun? ==>
              ImportedAsAnswered(cfg, src, a.filters, a.tools, a.remoteRows, a.mcpRows, a.problems)
    ensures BadFilterIsNamed(cfg, surface, failure)
    ensures failure.None? ==>
              if surface.ForRun? then
                && a.remoteRows == PlanOf(cfg, src, surface).remoteRows && a.mcpRows == PlanOf(cfg, src, surface).mcpRows
                && a.problems == PlanOf(cfg, src, surface).problems
                && RowsCover(cfg.servers, src.mcp, a.tools, a.mcpRows)
              else a.remoteRows == [] && a.mcpRows == [] && a.problems == []
    ensures cfg.commands.Ok? ==> Sound(a.filters, a.tools, a.claimed, |Kept(a.filters, cfg.commands.value)|)
    ensures surface.ForRun? && policy.Strict? && FiltersCompile(cfg, surface) && src.unbound != [] ==>
              failure == Some(src.unbound[0].failure)
    ensures failure.None? && surface.ForRun? && policy.Strict? ==>
              src.unbound == [] && a.problems == [] && NoneFailed(a.remoteRows) && NoneFailed(a.mcpRows)
  {
    hide Sound, UpTo, RemoteNames, Names, Kept, KeptBy, RowsCover, CustomSorted, CustomOk, NoneFailed, BuiltinsFit,
      ServedRows, WithheldRows, Entries, SessionsDistinct, FilterSpecs, NamesIn, BuiltinFails, RunImports, RunPlan,
      FiltersCompile, FiltersOf, AsConfigured, ImportedAsAnswered, BadFilterIsNamed;
    a := new Assembly();
    assert cfg.commands.Ok? ==> Sound([], [], {}, |Kept([], cfg.commands.value)|) by { EmptyIsSound(); }
    var filters;
    filters, failure := CompileFilters(cfg, surface);
    if failure.Some? {
      return;
    }
    a.filters := filters;
    assert forall f :: BadFilterIsNamed(cfg, surface, f) by { NoBadFilter(cfg, surface); }
    assert cfg.commands.Ok? ==> Sound(filters, [], {}, |Kept(filters, cfg.commands.value)|) by { EmptyIsSound(); }
    if surface == ForRun {
      a.problems := a.problems + src.unbound;
      assert a.problems == src.unbound;
      if policy == Strict && src.unbound != [] {
        failure := Some(src.unbound[0].failure);
        return;
      }
    }
    ghost var k := if cfg.commands.Ok? then |Kept(filters, cfg.commands.value)| else 0;
    failure := a.AddBase(cfg, src, surface);
    if failure.Some? {
      return;
    }
    ghost var added := [];
    if surface == ForRun {
      failure, added := a.AddRunTools(cfg, src, policy, k);
    }
    if failure.None? {
      SucceedsAsConfigured(cfg, src, surface, policy, a.tools);
      if surface == ForRun {
        RunAsAnswered(cfg, src, policy, a.tools);
      }
    }
  }
}

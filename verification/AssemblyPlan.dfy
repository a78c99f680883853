/** What an assembly comes to, told from its inputs: when it succeeds, and which tools it holds. */
module AssemblyPlans {
  import opened Wrappers
  import opened Toolkit
  import opened ToolLists
  import opened BuiltinTools
  import opened ImportedTools
  import opened CustomTools
  import RemoteTools
  import McpClient

  datatype Policy = Strict | Lenient

  // ----- the inputs

  datatype Config = Config(
    includes: Result<Filter, string>,
    excludes: Result<Filter, string>,
    exposed: Option<(Result<Filter, string>, Result<Filter, string>)>,   // expose.agent.tools
    commands: Result<seq<Tool>, string>,
    humanInTheLoop: seq<Tool>,
    memory: seq<Tool>,
    knowledge: seq<Tool>,
    harness: Result<seq<Tool>, string>,
    hosts: seq<RemoteTools.Host>,
    servers: seq<McpClient.Server>)

  /** What the caller opened: whether each store is there, and what each importer would answer. */
  datatype Sources = Sources(
    memory: bool,
    knowledge: bool,
    remote: Option<Client>,
    mcp: Sessions,
    custom: seq<Option<Tool>>,
    unbound: seq<Problem>)

  function FilterSpecs(cfg: Config, surface: Surface): seq<(string, Result<Filter, string>)> {
    [("include", cfg.includes), ("exclude", cfg.excludes)] +
    if surface != ForRun && cfg.exposed.Some?
    then [("expose.agent.tools.include", cfg.exposed.value.0), ("expose.agent.tools.exclude", cfg.exposed.value.1)]
    else []
  }

  /** The built-in families in the order they are added. */
  function Families(cfg: Config, src: Sources): seq<Family>
    requires cfg.harness.Ok?
  {
    [Family(FromHumanInTheLoop, cfg.humanInTheLoop, true),
     Family(FromMemory, cfg.memory, src.memory),
     Family(FromKnowledge, cfg.knowledge, src.knowledge),
     Family(FromTools, cfg.harness.value, true)]
  }

  predicate FiltersCompile(cfg: Config, surface: Surface) {
    forall i :: 0 <= i < |FilterSpecs(cfg, surface)| ==> FilterSpecs(cfg, surface)[i].1.Ok?
  }

  /** The commands the filters keep, then the built-ins that are served: what every surface starts from. */
  function Base(filters: seq<Filter>, commands: seq<Tool>, surface: Surface, entries: seq<Entry>): seq<Assembled> {
    AsKind(Kept(filters, commands), Application, FromApplication) + ServedRows(filters, surface, entries)
  }

  /** Why the built-ins may fail: one that is served has no open store, or a name somebody holds. */
  predicate BuiltinFails(filters: seq<Filter>, surface: Surface, entries: seq<Entry>, failure: Failure) {
    exists e :: e in entries && Served(filters, surface, e.tool) &&
                failure == if surface.ForRun? || e.ready then BuiltinClash(e.tool.name) else StoreMissing(e.tool.name)
  }

  /** What each refusal of a custom tool says of it, the taken names being those of earlier custom tools. */
  predicate Refusal(filters: seq<Filter>, rows: seq<Assembled>, remote: set<string>, taken: set<string>,
                    c: Option<Tool>, i: nat, failure: Failure)
  {
    match failure
    case NilCustom(index) => index == i && c.None?
    case UnnamedCustom(index) => index == i && c.Some? && c.value.name == ""
    case MisnamedCustom(name, definition) =>
      IsKeptCustom(filters, c) && c.value.name == name && c.value.definition == definition != name
    case DuplicateCustom(index, name) =>
      index == i && IsKeptCustom(filters, c) && c.value.name == name && name in taken
    case ShadowingCustom(index, name, kind) =>
      index == i && IsKeptCustom(filters, c) && c.value.name == name && name !in taken && (
        if kind == Remote then name in remote
        else exists k :: 0 <= k < |rows| && rows[k].tool.name == name && rows[k].kind == kind)
    case MisdeclaredCustom(name, kind) =>
      IsKeptCustom(filters, c) && c.value.name == name && c.value.declares == Some(kind) && kind in {Remote, MCP}
    case _ => false
  }

  predicate RefusedFor(filters: seq<Filter>, rows: seq<Assembled>, remote: set<string>,
                       custom: seq<Option<Tool>>, i: nat, failure: Failure)
    requires i < |custom|
  {
    Refusal(filters, rows, remote, KeptCustomNames(filters, custom[..i]), custom[i], i, failure)
  }

  lemma RefusedByName(filters: seq<Filter>, rows: seq<Assembled>, remote: set<string>,
                      custom: seq<Option<Tool>>, i: nat, byName: map<string, Tool>, failure: Failure)
    requires i < |custom| && ByName(filters, custom[..i], byName)
    requires Refusal(filters, rows, remote, byName.Keys, custom[i], i, failure)
    ensures RefusedFor(filters, rows, remote, custom, i, failure)
  {
    hide KeptBy, Refusal;
    forall n ensures n in byName.Keys <==> n in KeptCustomNames(filters, custom[..i]) {
      if n in byName {
        assert Some(byName[n]) in custom[..i];
      }
    }
    assert byName.Keys == KeptCustomNames(filters, custom[..i]);
  }

  // ----- what a run's sources come to

  /** The import of the MCP servers, done: the rows, a row a server, and the problems. */
  predicate McpDone(filters: seq<Filter>, p: Progress, servers: seq<McpClient.Server>, sessions: Sessions,
                    rows: seq<Assembled>, mcpRows: seq<Outcome>, problems: seq<Problem>)
  {
    if servers == [] then rows == p.rows && mcpRows == [] && problems == p.problems
    else
      var q := AfterSessions(filters, p, sessions);
      && rows == q.rows && problems == WithMissing(servers, q.imported, q.problems)
      && mcpRows == McpRowsOf(servers, q.imported, problems)
  }

  /** A run's tools ahead of the caller's own, with what is reported of each source. */
  datatype Plan = Plan(rows: seq<Assembled>, remoteRows: seq<Outcome>, mcpRows: seq<Outcome>, problems: seq<Problem>)

  /** The rows, outcomes and problems once the hosts are imported. */
  function AfterRemote(filters: seq<Filter>, base: seq<Assembled>, cfg: Config, src: Sources, problems: seq<Problem>)
    : Progress
  {
    Progress(base + AnsweredRows(RemoteOutcomes(filters, Names(base), cfg.hosts, src.remote), Remote), map[],
             RemoteProblems(filters, Names(base), cfg.hosts, src.remote, problems))
  }

  /** What the importers make of the sources, every tool of it told from the inputs. */
  function RunPlan(filters: seq<Filter>, base: seq<Assembled>, cfg: Config, src: Sources, problems: seq<Problem>): Plan {
    var remoteRows := RemoteOutcomes(filters, Names(base), cfg.hosts, src.remote);
    var p := AfterRemote(filters, base, cfg, src, problems);
    if cfg.servers == [] then Plan(p.rows, remoteRows, [], p.problems)
    else
      var q := AfterSessions(filters, p, src.mcp);
      var all := WithMissing(cfg.servers, q.imported, q.problems);
      Plan(q.rows, remoteRows, McpRowsOf(cfg.servers, q.imported, all), all)
  }

  /** Whether no source fails, so that a strict assembly goes on. */
  predicate RunImports(filters: seq<Filter>, base: seq<Assembled>, cfg: Config, src: Sources, problems: seq<Problem>) {
    && RemoteImports(Names(base), cfg.hosts, src.remote, problems)
    && McpImports(filters, AfterRemote(filters, base, cfg, src, problems), cfg.servers, src.mcp)
  }

  lemma StrictRemote(filters: seq<Filter>, names: set<string>, hosts: seq<RemoteTools.Host>, client: Option<Client>,
                     problems: seq<Problem>, before: seq<Problem>, policy: Policy)
    requires policy.Lenient? || RemoteImports(names, hosts, client, before)
    requires problems == RemoteProblems(filters, names, hosts, client, before)
    ensures policy.Strict? && before == [] ==> problems == [] && NoneFailed(RemoteOutcomes(filters, names, hosts, client))
  {
    hide HostsImport, HostOutcomes, FailedRows;
    if policy.Strict? && hosts != [] && client.Some? {
      StrictHostsAllAnswer(filters, names, hosts, client);
    }
  }

  lemma RemoteComesFirst(rows: seq<Assembled>)
    requires UpTo(rows, Remote)
    ensures UpTo(rows, MCP)
  {
  }

  lemma AfterNone(filters: seq<Filter>, p: Progress, sessions: Sessions)
    ensures AfterSessions(filters, p, sessions[..0]) == p
  {
  }

  lemma AfterOneMore(filters: seq<Filter>, p: Progress, sessions: Sessions, s: nat)
    requires s < |sessions|
    ensures var q := AfterSessions(filters, p, sessions[..s]);
            && AfterSessions(filters, p, sessions[..s + 1]) ==
               (if sessions[s].None? then q else AfterSession(filters, q, sessions[s].value))
            && (SessionImports(filters, p, sessions, s) <==>
                sessions[s].None? || McpClient.Imports(sessions[s].value, Names(q.rows)))
  {
    hide McpClient.Imports, AfterSession;
    assert sessions[..s + 1][..s] == sessions[..s];
  }

  lemma StopsHere(filters: seq<Filter>, p: Progress, sessions: Sessions, s: nat, failure: Failure)
    requires s < |sessions| && sessions[s].Some? && !SessionImports(filters, p, sessions, s)
    requires forall r :: 0 <= r < s ==> SessionImports(filters, p, sessions, r)
    requires SessionFails(sessions[s].value, Names(AfterSessions(filters, p, sessions[..s]).rows), failure)
    ensures FirstSessionFails(filters, p, sessions, failure)
    ensures !AllSessionsImport(filters, p, sessions)
  {
    hide SessionImports, SessionFails, AfterSessions;
  }

  lemma FailedHostsAreEmpty(claimed: set<string>, asked: seq<RemoteTools.HostImport>)
    ensures var rows := RemoteTools.Resolved(claimed, asked);
            forall i :: 0 <= i < |rows| && rows[i].found.Err? ==> rows[i].tools == []
  {
  }

  lemma SameAsAsked(hosts: seq<RemoteTools.Host>, client: Client)
    ensures (forall i :: 0 <= i < |hosts| ==> client(hosts[i]).Ok?) <==>
            (forall i :: 0 <= i < |hosts| ==> Asked(hosts, client)[i].found.Ok?)
  {
    assert forall i :: 0 <= i < |hosts| ==> Asked(hosts, client)[i].found == client(hosts[i]);
  }

  // ----- the whole assembly, from its inputs

  function FiltersOf(cfg: Config, surface: Surface): (filters: seq<Filter>)
    requires FiltersCompile(cfg, surface)
    ensures |filters| == |FilterSpecs(cfg, surface)|
    ensures forall i :: 0 <= i < |filters| ==> FilterSpecs(cfg, surface)[i].1 == Ok(filters[i])
  {
    var specs := FilterSpecs(cfg, surface);
    seq(|specs|, i requires 0 <= i < |specs| => specs[i].1.value)
  }

  /** What every surface needs: filters that compile, an application, and built-ins that fit beside its commands. */
  predicate Starts(cfg: Config, src: Sources, surface: Surface) {
    && FiltersCompile(cfg, surface) && cfg.commands.Ok? && cfg.harness.Ok?
    && var filters := FiltersOf(cfg, surface);
       BuiltinsFit(filters, surface, NamesIn(Kept(filters, cfg.commands.value)), Entries(Families(cfg, src)))
  }

  function BaseOf(cfg: Config, src: Sources, surface: Surface): seq<Assembled>
    requires Starts(cfg, src, surface)
  {
    Base(FiltersOf(cfg, surface), cfg.commands.value, surface, Entries(Families(cfg, src)))
  }

  /** What the importers of a run make of its sources. */
  function PlanOf(cfg: Config, src: Sources, surface: Surface): Plan
    requires Starts(cfg, src, surface)
  {
    RunPlan(FiltersOf(cfg, surface), BaseOf(cfg, src, surface), cfg, src, src.unbound)
  }

  /** When an assembly succeeds. */
  predicate Succeeds(cfg: Config, src: Sources, surface: Surface, policy: Policy) {
    && Starts(cfg, src, surface)
    && (surface.ForRun? ==>
          && (policy.Lenient? ||
              (src.unbound == [] && RunImports(FiltersOf(cfg, surface), BaseOf(cfg, src, surface), cfg, src, [])))
          && var rows := PlanOf(cfg, src, surface).rows;
             CustomOk(FiltersOf(cfg, surface), rows, RemoteNames(rows), src.custom))
  }

  /** The tools an assembly that succeeds holds, in order. */
  ghost predicate AssemblesTo(cfg: Config, src: Sources, surface: Surface, rows: seq<Assembled>)
    requires Starts(cfg, src, surface)
  {
    if !surface.ForRun? then rows == BaseOf(cfg, src, surface)
    else exists added :: CustomSorted(FiltersOf(cfg, surface), src.custom, added) &&
                         rows == PlanOf(cfg, src, surface).rows + AsKind(added, Custom, FromCustom)
  }

  /**
    Reordering the caller's own tools changes neither whether an assembly succeeds nor any
    tool in it or its place.
   */
  lemma AssemblyIgnoresCustomOrder(cfg: Config, src: Sources, custom: seq<Option<Tool>>, surface: Surface, policy: Policy,
                                   rows: seq<Assembled>, others: seq<Assembled>)
    requires multiset(custom) == multiset(src.custom)
    ensures Succeeds(cfg, src, surface, policy) <==> Succeeds(cfg, src.(custom := custom), surface, policy)
    ensures Succeeds(cfg, src, surface, policy) ==>
              (AssemblesTo(cfg, src, surface, rows) && AssemblesTo(cfg, src.(custom := custom), surface, others) ==>
                 rows == others)
  {
    hide CustomOk, CustomSorted, BuiltinsFit, Kept, Names, RemoteNames, McpImports, RemoteImports, Entries,
      AnsweredRows, AfterSessions, WithMissing, RemoteOutcomes, RemoteProblems, FiltersCompile, FiltersOf;
    var other := src.(custom := custom);
    SameEntries(cfg, src, custom);
    if Starts(cfg, src, surface) && surface.ForRun? {
      var filters, plan := FiltersOf(cfg, surface), PlanOf(cfg, src, surface);
      assert PlanOf(cfg, other, surface) == plan;
      CustomOrderIsIrrelevant(filters, plan.rows, RemoteNames(plan.rows), src.custom, custom, [], []);
      if Succeeds(cfg, src, surface, policy) && AssemblesTo(cfg, src, surface, rows) && AssemblesTo(cfg, other, surface, others) {
        var a :| CustomSorted(filters, src.custom, a) && rows == plan.rows + AsKind(a, Custom, FromCustom);
        var b :| CustomSorted(filters, custom, b) && others == plan.rows + AsKind(b, Custom, FromCustom);
        CustomOrderIsIrrelevant(filters, plan.rows, RemoteNames(plan.rows), src.custom, custom, a, b);
      }
    }
  }

  lemma SameEntries(cfg: Config, src: Sources, custom: seq<Option<Tool>>)
    ensures cfg.harness.Ok? ==> Families(cfg, src) == Families(cfg, src.(custom := custom))
  {
  }
}

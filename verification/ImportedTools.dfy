/**
  The tools imported from other agents and from MCP servers: which ones enter the list, in
  which order and under which names, and which problems are recorded.
 */
module ImportedTools {
  import opened Wrappers
  import opened Toolkit
  import opened ToolLists
  import RemoteTools
  import McpClient

  datatype Block = RemoteBlock | McpBlock

  datatype Failure =
    | BadFilter(key: string)
    | Reported(reason: string)                       // what the caller found while connecting
    | NotIntrospected(reason: string)
    | BadOption(reason: string)
    | StoreMissing(tool: string)
    | BuiltinClash(tool: string)
    | ClientMissing
    | HostsFailed(remote: RemoteTools.Failure)
    | HostFailed(reason: string)
    | ServersFailed(mcp: McpClient.Failure)
    | ServerFailed(reason: string)
    | SessionMissing(server: string)
    | NilCustom(index: nat)
    | UnnamedCustom(index: nat)
    | MisnamedCustom(name: string, definition: string)
    | DuplicateCustom(index: nat, name: string)
    | ShadowingCustom(index: nat, name: string, kind: Kind)
    | MisdeclaredCustom(name: string, kind: Kind)

  datatype Problem = Problem(block: Block, alias: string, failure: Failure)

  /** One importer's row as the assembly reads it. */
  datatype Outcome = Outcome(name: string, source: Source, failure: Option<Failure>, tools: seq<Tool>)

  type Sessions = seq<Option<seq<McpClient.Listing>>>
  type Client = RemoteTools.Host -> Result<seq<Descriptor>, string>

  // ----- what an importer adds

  /** The tools of the importers that answered, in row order. */
  function Answered(outcomes: seq<Outcome>): seq<Tool> {
    if outcomes == [] then []
    else
      var last := outcomes[|outcomes| - 1];
      Answered(outcomes[..|outcomes| - 1]) + if last.failure.None? then last.tools else []
  }

  function AnsweredRows(outcomes: seq<Outcome>, kind: Kind): seq<Assembled> {
    if outcomes == [] then []
    else
      var last := outcomes[|outcomes| - 1];
      AnsweredRows(outcomes[..|outcomes| - 1], kind) + if last.failure.None? then AsKind(last.tools, kind, last.source) else []
  }

  function FailedRows(outcomes: seq<Outcome>, block: Block): seq<Problem> {
    if outcomes == [] then []
    else
      var last := outcomes[|outcomes| - 1];
      FailedRows(outcomes[..|outcomes| - 1], block) +
      if last.failure.Some? then [Problem(block, last.name, last.failure.value)] else []
  }

  lemma {:induction false} AnsweredAreTheRows(outcomes: seq<Outcome>, kind: Kind)
    ensures ToolsOf(AnsweredRows(outcomes, kind)) == Answered(outcomes) && AllOf(AnsweredRows(outcomes, kind), kind)
  {
    if outcomes != [] {
      var sofar := outcomes[..|outcomes| - 1];
      var last := outcomes[|outcomes| - 1];
      AnsweredAreTheRows(sofar, kind);
      var own := if last.failure.None? then AsKind(last.tools, kind, last.source) else [];
      assert AnsweredRows(outcomes, kind) == AnsweredRows(sofar, kind) + own;
      ToolsOfMore(AnsweredRows(sofar, kind), own);
      assert ToolsOf(own) == if last.failure.None? then last.tools else [];
    }
  }

  lemma NoOutcomes(kind: Kind, block: Block)
    ensures AnsweredRows([], kind) == [] && NamesIn(Answered([])) == {} && FailedRows([], block) == []
  {
  }

  lemma OneMoreOutcome(outcomes: seq<Outcome>, i: nat, kind: Kind, block: Block)
    requires i < |outcomes|
    ensures var o := outcomes[i];
            && AnsweredRows(outcomes[..i + 1], kind) == AnsweredRows(outcomes[..i], kind) +
                 (if o.failure.None? then AsKind(o.tools, kind, o.source) else [])
            && NamesIn(Answered(outcomes[..i + 1])) == NamesIn(Answered(outcomes[..i])) +
                 (if o.failure.None? then NamesIn(o.tools) else {})
            && FailedRows(outcomes[..i + 1], block) == FailedRows(outcomes[..i], block) +
                 (if o.failure.Some? then [Problem(block, o.name, o.failure.value)] else [])
  {
    assert outcomes[..i + 1][..i] == outcomes[..i];
  }

  predicate NoneFailed(outcomes: seq<Outcome>) {
    forall i :: 0 <= i < |outcomes| ==> outcomes[i].failure.None?
  }

  lemma {:induction false} NoFailedRows(outcomes: seq<Outcome>, block: Block)
    ensures FailedRows(outcomes, block) == [] <==> NoneFailed(outcomes)
  {
    if outcomes != [] {
      NoFailedRows(outcomes[..|outcomes| - 1], block);
    }
  }

  /** Importers that keep to new names give rows that join the list once filtered. */
  lemma ImportsJoin(filters: seq<Filter>, rows: seq<Assembled>, outcomes: seq<Outcome>, kind: Kind, imported: seq<Tool>)
    requires Answered(outcomes) == Kept(filters, imported)
    requires DistinctNames(imported) && NamesIn(imported) !! Names(rows)
    ensures Joins(filters, rows, AnsweredRows(outcomes, kind), kind)
    ensures Names(AnsweredRows(outcomes, kind)) == NamesIn(Kept(filters, imported))
  {
    hide KeptBy;
    var added := AnsweredRows(outcomes, kind);
    AnsweredAreTheRows(outcomes, kind);
    KeptIsAPart(filters, imported);
    NamesOfKind(added, kind);
    forall i | 0 <= i < |added| ensures KeptBy(filters, added[i].tool) {
      assert ToolsOf(added)[i] in Kept(filters, imported);
    }
  }

  lemma AnsweredOfMore(outcomes: seq<Outcome>, o: Outcome)
    ensures Answered(outcomes + [o]) == Answered(outcomes) + if o.failure.None? then o.tools else []
  {
    assert (outcomes + [o])[..|outcomes|] == outcomes;
  }

  lemma AnsweredNone(filters: seq<Filter>)
    ensures Answered([]) == [] && Kept(filters, []) == []
  {
  }

  lemma {:induction false} AnsweredAreHeld(outcomes: seq<Outcome>, i: nat, t: Tool)
    requires i < |outcomes| && outcomes[i].failure.None? && t in outcomes[i].tools
    ensures Assembled(t, MCP, outcomes[i].source) in AnsweredRows(outcomes, MCP)
    decreases |outcomes|
  {
    if i == |outcomes| - 1 {
      var j :| 0 <= j < |outcomes[i].tools| && outcomes[i].tools[j] == t;
      assert AsKind(outcomes[i].tools, MCP, outcomes[i].source)[j] == Assembled(t, MCP, outcomes[i].source);
    } else {
      AnsweredAreHeld(outcomes[..|outcomes| - 1], i, t);
    }
  }

  // ----- the remote hosts

  function Asked(hosts: seq<RemoteTools.Host>, client: Client)
    : (r: seq<RemoteTools.HostImport>)
    ensures |r| == |hosts|
    ensures forall i :: 0 <= i < |hosts| ==> r[i] == RemoteTools.HostImport(hosts[i], client(hosts[i]), [])
  {
    seq(|hosts|, i requires 0 <= i < |hosts| => RemoteTools.HostImport(hosts[i], client(hosts[i]), []))
  }

  /** Whether every host answers and no final name clashes. */
  predicate HostsImport(claimed: set<string>, hosts: seq<RemoteTools.Host>,
                        client: Client)
  {
    var offers := RemoteTools.Offers(Asked(hosts, client));
    var bare := RemoteTools.BareNames(offers);
    && (forall i :: 0 <= i < |hosts| ==> client(hosts[i]).Ok?)
    && !RemoteTools.AnyClash(claimed, bare, RemoteTools.FinalNames(claimed, bare, offers), offers)
  }

  function HostOutcomes(filters: seq<Filter>, rows: seq<RemoteTools.HostImport>): (r: seq<Outcome>)
    ensures |r| == |rows| && forall i :: 0 <= i < |rows| ==> r[i] == HostOutcome(filters, rows[i])
  {
    seq(|rows|, i requires 0 <= i < |rows| => HostOutcome(filters, rows[i]))
  }

  function HostOutcome(filters: seq<Filter>, r: RemoteTools.HostImport): Outcome {
    Outcome(r.host.name, FromHost(RemoteTools.Alias(r.host)),
            if r.found.Err? then Some(HostFailed(r.found.error)) else None, Kept(filters, r.tools))
  }

  lemma {:induction false} AnsweredHosts(filters: seq<Filter>, rows: seq<RemoteTools.HostImport>)
    requires forall i :: 0 <= i < |rows| && rows[i].found.Err? ==> rows[i].tools == []
    ensures Answered(HostOutcomes(filters, rows)) == Kept(filters, RemoteTools.AllTools(rows))
  {
    hide Answered, Kept, KeptBy;
    AnsweredNone(filters);
    if rows != [] {
      var sofar, r := rows[..|rows| - 1], rows[|rows| - 1];
      AnsweredHosts(filters, sofar);
      KeptOfJoin(filters, RemoteTools.AllTools(sofar), r.tools);
      AnsweredOfMore(HostOutcomes(filters, sofar), HostOutcome(filters, r));
      assert HostOutcomes(filters, rows) == HostOutcomes(filters, sofar) + [HostOutcome(filters, r)];
    }
  }

  lemma RemoteKeys(filters: seq<Filter>, byName: map<string, Tool>, remote: map<string, Tool>, imported: seq<Tool>)
    requires RemoteTools.Indexes(byName, imported)
    requires remote == map n | n in byName && KeptBy(filters, byName[n]) :: byName[n]
    ensures remote.Keys == NamesIn(Kept(filters, imported))
  {
    hide KeptBy;
    KeptIsAPart(filters, imported);
  }

  predicate HasProblemIn(problems: seq<Problem>, block: Block, alias: string) {
    exists i :: 0 <= i < |problems| && problems[i].block == block && problems[i].alias == alias
  }

  /** The rows of the remote import: every host's own tools under their final names, the kept ones. */
  function RemoteOutcomes(filters: seq<Filter>, claimed: set<string>, hosts: seq<RemoteTools.Host>, client: Option<Client>)
    : seq<Outcome>
  {
    if hosts == [] || client.None? then []
    else HostOutcomes(filters, RemoteTools.Resolved(claimed, Asked(hosts, client.value)))
  }

  function RemoteProblems(filters: seq<Filter>, claimed: set<string>, hosts: seq<RemoteTools.Host>,
                          client: Option<Client>, problems: seq<Problem>): seq<Problem>
  {
    if hosts == [] then problems
    else if client.Some? then problems + FailedRows(RemoteOutcomes(filters, claimed, hosts, client), RemoteBlock)
    else if HasProblemIn(problems, RemoteBlock, "") then problems
    else problems + [Problem(RemoteBlock, "", ClientMissing)]
  }

  /** Whether the remote import keeps a strict assembly going. */
  predicate RemoteImports(claimed: set<string>, hosts: seq<RemoteTools.Host>, client: Option<Client>,
                          problems: seq<Problem>)
  {
    hosts == [] || if client.Some? then HostsImport(claimed, hosts, client.value) else HasProblemIn(problems, RemoteBlock, "")
  }

  lemma StrictHostsAllAnswer(filters: seq<Filter>, claimed: set<string>, hosts: seq<RemoteTools.Host>, client: Option<Client>)
    requires client.Some? && HostsImport(claimed, hosts, client.value)
    ensures NoneFailed(RemoteOutcomes(filters, claimed, hosts, client))
    ensures FailedRows(RemoteOutcomes(filters, claimed, hosts, client), RemoteBlock) == []
  {
    hide RemoteTools.AnyClash, Kept, FailedRows;
    NoFailedRows(RemoteOutcomes(filters, claimed, hosts, client), RemoteBlock);
  }

  // ----- the MCP servers, session by session

  /** How far an assembly is: its rows, what the sessions returned by server, and the problems so far. */
  datatype Progress = Progress(rows: seq<Assembled>, imported: map<string, Outcome>, problems: seq<Problem>)

  /** The outcomes of one session, its servers held to every name in use. */
  function SessionOutcomes(filters: seq<Filter>, held: set<string>, listings: seq<McpClient.Listing>): seq<Outcome> {
    ServerOutcomes(filters, McpClient.Rows(listings, held))
  }

  function RecordAll(imported: map<string, Outcome>, outcomes: seq<Outcome>): map<string, Outcome> {
    if outcomes == [] then imported
    else
      var last := outcomes[|outcomes| - 1];
      RecordAll(imported, outcomes[..|outcomes| - 1])[last.name := last]
  }

  function AfterSession(filters: seq<Filter>, p: Progress, listings: seq<McpClient.Listing>): Progress {
    var outcomes := SessionOutcomes(filters, Names(p.rows), listings);
    Progress(p.rows + AnsweredRows(outcomes, MCP), RecordAll(p.imported, outcomes), p.problems + FailedRows(outcomes, McpBlock))
  }

  function AfterSessions(filters: seq<Filter>, p: Progress, sessions: Sessions): Progress {
    if sessions == [] then p
    else
      var before, last := AfterSessions(filters, p, sessions[..|sessions| - 1]), sessions[|sessions| - 1];
      if last.None? then before else AfterSession(filters, before, last.value)
  }

  /** The names in use when a session's turn comes. */
  function HeldBy(filters: seq<Filter>, p: Progress, sessions: Sessions, s: nat): set<string>
    requires s <= |sessions|
  {
    Names(AfterSessions(filters, p, sessions[..s]).rows)
  }

  predicate SessionImports(filters: seq<Filter>, p: Progress, sessions: Sessions, s: nat)
    requires s < |sessions|
  {
    sessions[s].None? || McpClient.Imports(sessions[s].value, HeldBy(filters, p, sessions, s))
  }

  predicate Accounted(name: string, imported: map<string, Outcome>, problems: seq<Problem>) {
    name in imported || HasProblemIn(problems, McpBlock, name) || HasProblemIn(problems, McpBlock, "")
  }

  /** The problems once every server no session held, and none explained, has one. */
  function WithMissing(servers: seq<McpClient.Server>, imported: map<string, Outcome>, problems: seq<Problem>): seq<Problem> {
    if servers == [] then problems
    else
      var before, name := WithMissing(servers[..|servers| - 1], imported, problems), servers[|servers| - 1].name;
      if Accounted(name, imported, before) then before else before + [Problem(McpBlock, name, SessionMissing(name))]
  }

  function McpRowsOf(servers: seq<McpClient.Server>, imported: map<string, Outcome>, problems: seq<Problem>)
    : (rows: seq<Outcome>)
    ensures |rows| == |servers| && forall i :: 0 <= i < |rows| ==> rows[i] == RowFor(servers[i], imported, problems)
  {
    seq(|servers|, i requires 0 <= i < |servers| => RowFor(servers[i], imported, problems))
  }

  predicate AllSessionsImport(filters: seq<Filter>, p: Progress, sessions: Sessions) {
    forall s :: 0 <= s < |sessions| ==> SessionImports(filters, p, sessions, s)
  }

  predicate AllAccounted(servers: seq<McpClient.Server>, imported: map<string, Outcome>, problems: seq<Problem>) {
    forall i :: 0 <= i < |servers| ==> Accounted(servers[i].name, imported, problems)
  }

  /** Whether the MCP import keeps a strict assembly going: every session imports, every server is accounted for. */
  predicate McpImports(filters: seq<Filter>, p: Progress, servers: seq<McpClient.Server>, sessions: Sessions) {
    servers == [] ||
    (AllSessionsImport(filters, p, sessions) &&
     var q := AfterSessions(filters, p, sessions); AllAccounted(servers, q.imported, q.problems))
  }

  /** Why a session's import fails: its own listing, or a usable name that was held when its turn came. */
  predicate SessionFails(listings: seq<McpClient.Listing>, held: set<string>, failure: Failure) {
    match failure
    case ServersFailed(Unlisted(server, reason)) =>
      exists i :: 0 <= i < |listings| && listings[i].server.name == server && listings[i].found == Err(reason)
    case ServersFailed(Collided) => McpClient.AnyCollides(listings, held)
    case _ => false
  }

  /** The first session that does not import is what stops a strict assembly. */
  predicate FirstSessionFails(filters: seq<Filter>, p: Progress, sessions: Sessions, failure: Failure) {
    exists s :: 0 <= s < |sessions| && sessions[s].Some? &&
                (forall r :: 0 <= r < s ==> SessionImports(filters, p, sessions, r)) &&
                !SessionImports(filters, p, sessions, s) &&
                SessionFails(sessions[s].value, HeldBy(filters, p, sessions, s), failure)
  }

  /** A configured server no session held and no problem explains. */
  predicate MissingFrom(servers: seq<McpClient.Server>, imported: map<string, Outcome>, problems: seq<Problem>,
                        failure: Failure)
  {
    exists i :: 0 <= i < |servers| && failure == SessionMissing(servers[i].name) &&
                !Accounted(servers[i].name, imported, problems)
  }

  lemma FailsAsReported(listings: seq<McpClient.Listing>, held: set<string>, failure: McpClient.Failure)
    requires failure.Collided? ==> McpClient.AnyCollides(listings, held)
    requires failure.Unlisted? ==>
               exists i :: 0 <= i < |listings| && listings[i].found.Err? &&
                           failure == McpClient.Unlisted(listings[i].server.name, listings[i].found.error)
    ensures SessionFails(listings, held, ServersFailed(failure))
  {
    hide McpClient.AnyCollides;
  }

  /** A session's outcomes, server by server. */
  lemma SessionAnswers(filters: seq<Filter>, held: set<string>, listings: seq<McpClient.Listing>)
    ensures var outcomes := SessionOutcomes(filters, held, listings);
            && |outcomes| == |listings|
            && forall i :: 0 <= i < |outcomes| ==>
                 && outcomes[i].name == listings[i].server.name
                 && (outcomes[i].failure.None? <==> listings[i].found.Ok?)
                 && (outcomes[i].failure.Some? ==> outcomes[i].tools == [])
  {
    hide McpClient.Rows, McpClient.AllTools, Kept;
    McpClient.RowsAreNew(listings, held);
    AnsweredNone(filters);
  }

  lemma {:induction false} RecordAllRecords(imported: map<string, Outcome>, outcomes: seq<Outcome>)
    requires forall i, j :: 0 <= i < j < |outcomes| ==> outcomes[i].name != outcomes[j].name
    ensures Recorded(imported, outcomes, RecordAll(imported, outcomes))
  {
    hide Recorded;
    if outcomes == [] {
      NothingRecorded(imported);
    } else {
      var front, last := outcomes[..|outcomes| - 1], outcomes[|outcomes| - 1];
      RecordAllRecords(imported, front);
      RecordedOneMore(imported, front, RecordAll(imported, front), last);
      assert outcomes == front + [last];
    }
  }

  predicate SessionsDistinct(sessions: Sessions) {
    forall s :: 0 <= s < |sessions| && sessions[s].Some? ==> DistinctServers(sessions[s].value)
  }

  /** After any number of sessions each server's tools are in the assembly. */
  lemma {:induction false} SessionsHold(filters: seq<Filter>, p: Progress, sessions: Sessions, n: nat)
    requires n <= |sessions| && SessionsDistinct(sessions) && p.imported == map[]
    ensures var q := AfterSessions(filters, p, sessions[..n]); ImportedHeld(q.rows, sessions, q.imported)
  {
    hide ImportedHeld, SessionOutcomes, Recorded, AnsweredRows, FailedRows, RecordAll;
    if n == 0 {
      NothingImported(p.rows, sessions);
    } else {
      SessionsHold(filters, p, sessions, n - 1);
      assert sessions[..n][..n - 1] == sessions[..n - 1];
      if sessions[n - 1].Some? {
        var q := AfterSessions(filters, p, sessions[..n - 1]);
        var outcomes := SessionOutcomes(filters, Names(q.rows), sessions[n - 1].value);
        SessionAnswers(filters, Names(q.rows), sessions[n - 1].value);
        assert DistinctServers(sessions[n - 1].value);
        RecordAllRecords(q.imported, outcomes);
        RecordedAreHeld(q.rows, sessions, n - 1, q.imported, outcomes, RecordAll(q.imported, outcomes));
      }
    }
  }

  /** Sessions that all import leave no failed outcome and no new problem. */
  lemma {:induction false} SessionsLeaveNoProblem(filters: seq<Filter>, p: Progress, sessions: Sessions, n: nat)
    requires n <= |sessions| && SessionsDistinct(sessions) && p.imported == map[]
    requires forall s :: 0 <= s < n ==> SessionImports(filters, p, sessions, s)
    ensures var q := AfterSessions(filters, p, sessions[..n]); NoneImportedFailed(q.imported) && q.problems == p.problems
  {
    hide NoneImportedFailed, SessionOutcomes, Recorded, AnsweredRows, FailedRows, RecordAll, McpClient.AnyCollides;
    if n == 0 {
      NothingImported(p.rows, sessions);
    } else {
      SessionsLeaveNoProblem(filters, p, sessions, n - 1);
      assert sessions[..n][..n - 1] == sessions[..n - 1];
      if sessions[n - 1].Some? {
        assert SessionImports(filters, p, sessions, n - 1);
        var q := AfterSessions(filters, p, sessions[..n - 1]);
        var outcomes := SessionOutcomes(filters, Names(q.rows), sessions[n - 1].value);
        SessionAnswers(filters, Names(q.rows), sessions[n - 1].value);
        assert DistinctServers(sessions[n - 1].value);
        RecordAllRecords(q.imported, outcomes);
        NoneRecordedFailed(q.imported, outcomes, RecordAll(q.imported, outcomes));
        NoFailedRows(outcomes, McpBlock);
      }
    }
  }

  lemma HasProblemInMore(problems: seq<Problem>, more: seq<Problem>, block: Block, alias: string)
    requires HasProblemIn(problems, block, alias) && problems <= more
    ensures HasProblemIn(more, block, alias)
  {
    var i :| 0 <= i < |problems| && problems[i].block == block && problems[i].alias == alias;
    assert more[i] == problems[i];
  }

  lemma AccountedInMore(name: string, imported: map<string, Outcome>, problems: seq<Problem>, more: seq<Problem>)
    requires Accounted(name, imported, problems) && problems <= more
    ensures Accounted(name, imported, more)
  {
    if HasProblemIn(problems, McpBlock, name) {
      HasProblemInMore(problems, more, McpBlock, name);
    } else if HasProblemIn(problems, McpBlock, "") {
      HasProblemInMore(problems, more, McpBlock, "");
    }
  }

  /** With what is missing added every server is accounted for, and nothing is added when they all were. */
  lemma {:induction false} WithMissingAccounts(servers: seq<McpClient.Server>, imported: map<string, Outcome>,
                                               problems: seq<Problem>)
    ensures var all := WithMissing(servers, imported, problems);
            problems <= all && AllAccounted(servers, imported, all) && (AllAccounted(servers, imported, problems) ==> all == problems)
  {
    hide Accounted;
    if servers != [] {
      var front, name := servers[..|servers| - 1], servers[|servers| - 1].name;
      var before, all := WithMissing(front, imported, problems), WithMissing(servers, imported, problems);
      WithMissingAccounts(front, imported, problems);
      if AllAccounted(servers, imported, problems) {
        assert Accounted(servers[|servers| - 1].name, imported, problems);
        assert forall i :: 0 <= i < |front| ==> front[i] == servers[i];
      }
      assert Accounted(name, imported, all) by { NowAccounted(name, imported, before, all); }
      forall i | 0 <= i < |front| ensures Accounted(servers[i].name, imported, all) {
        assert Accounted(front[i].name, imported, before);
        AccountedInMore(front[i].name, imported, before, all);
      }
    }
  }

  lemma NowAccounted(name: string, imported: map<string, Outcome>, before: seq<Problem>, all: seq<Problem>)
    requires all == if Accounted(name, imported, before) then before else before + [Problem(McpBlock, name, SessionMissing(name))]
    ensures Accounted(name, imported, all)
  {
    if all != before {
      assert all[|before|].block == McpBlock && all[|before|].alias == name;
    }
  }

  lemma AllAccountedFor(servers: seq<McpClient.Server>, sessions: Sessions, rows: seq<Assembled>,
                        imported: map<string, Outcome>, problems: seq<Problem>)
    requires ImportedHeld(rows, sessions, imported) && AllAccounted(servers, imported, problems)
    ensures RowsCover(servers, sessions, rows, McpRowsOf(servers, imported, problems))
    ensures problems == [] && NoneImportedFailed(imported) ==> NoneFailed(McpRowsOf(servers, imported, problems))
  {
    hide RowHeld, Listed;
    var outcomes := McpRowsOf(servers, imported, problems);
    forall i | 0 <= i < |servers|
      ensures outcomes[i].name == servers[i].name && RowHeld(rows, outcomes[i])
      ensures outcomes[i].failure.None? ==> Listed(sessions, servers[i].name)
      ensures problems == [] ==> servers[i].name in imported
    {
      assert Accounted(servers[i].name, imported, problems);
      FirstProblemIsThere(problems, servers[i].name);
      if servers[i].name !in imported {
        FailedIsHeld(rows, outcomes[i]);
      }
    }
  }

  function ServerOutcomes(filters: seq<Filter>, rows: seq<McpClient.ServerImport>): (r: seq<Outcome>)
    ensures |r| == |rows| && forall i :: 0 <= i < |rows| ==> r[i] == ServerOutcome(filters, rows[i])
  {
    seq(|rows|, i requires 0 <= i < |rows| => ServerOutcome(filters, rows[i]))
  }

  function ServerOutcome(filters: seq<Filter>, r: McpClient.ServerImport): Outcome {
    Outcome(r.server.name, FromServer(McpClient.Alias(r.server)),
            if r.error.Some? then Some(ServerFailed(r.error.value)) else None, Kept(filters, r.tools))
  }

  lemma {:induction false} AnsweredServers(filters: seq<Filter>, rows: seq<McpClient.ServerImport>)
    requires forall i :: 0 <= i < |rows| && rows[i].error.Some? ==> rows[i].tools == []
    ensures Answered(ServerOutcomes(filters, rows)) == Kept(filters, McpClient.AllTools(rows))
  {
    hide Answered, Kept, KeptBy;
    AnsweredNone(filters);
    if rows != [] {
      var sofar, r := rows[..|rows| - 1], rows[|rows| - 1];
      AnsweredServers(filters, sofar);
      KeptOfJoin(filters, McpClient.AllTools(sofar), r.tools);
      AnsweredOfMore(ServerOutcomes(filters, sofar), ServerOutcome(filters, r));
      assert ServerOutcomes(filters, rows) == ServerOutcomes(filters, sofar) + [ServerOutcome(filters, r)];
    }
  }

  /** The caller's failure for a server, its own or the whole block's: the first one recorded. */
  function FirstProblem(problems: seq<Problem>, server: string): Option<Failure> {
    if problems == [] then None
    else if problems[0].block.McpBlock? && (problems[0].alias == server || problems[0].alias == "")
    then Some(problems[0].failure)
    else FirstProblem(problems[1..], server)
  }

  /** A server's row: what a session returned for it, else why none did. */
  function RowFor(server: McpClient.Server, imported: map<string, Outcome>, problems: seq<Problem>): Outcome {
    if server.name in imported then imported[server.name]
    else Outcome(server.name, FromServer(McpClient.Alias(server)), FirstProblem(problems, server.name), [])
  }

  predicate Listed(sessions: Sessions, name: string) {
    exists s, l :: 0 <= s < |sessions| && sessions[s].Some? && 0 <= l < |sessions[s].value| &&
                   sessions[s].value[l].server.name == name && sessions[s].value[l].found.Ok?
  }

  predicate DistinctServers(listings: seq<McpClient.Listing>) {
    forall i, j :: 0 <= i < j < |listings| ==> listings[i].server.name != listings[j].server.name
  }

  /** A row without a failure has every one of its tools in the assembly; one with a failure has none. */
  predicate RowHeld(rows: seq<Assembled>, o: Outcome) {
    if o.failure.None? then forall t :: t in o.tools ==> Assembled(t, MCP, o.source) in rows else o.tools == []
  }

  /** What the sessions have returned so far, by server. */
  predicate ImportedHeld(rows: seq<Assembled>, sessions: Sessions,
                         imported: map<string, Outcome>)
  {
    forall n :: n in imported ==>
      imported[n].name == n && RowHeld(rows, imported[n]) && (imported[n].failure.None? ==> Listed(sessions, n))
  }

  predicate NoneImportedFailed(imported: map<string, Outcome>) {
    forall n :: n in imported ==> imported[n].failure.None?
  }

  /** One row a server, in the order they are configured, each with its tools or with a failure. */
  predicate RowsCover(servers: seq<McpClient.Server>, sessions: Sessions,
                      rows: seq<Assembled>, outcomes: seq<Outcome>)
  {
    && |outcomes| == |servers|
    && forall i :: 0 <= i < |servers| ==>
         && outcomes[i].name == servers[i].name && RowHeld(rows, outcomes[i])
         && (outcomes[i].failure.None? ==> Listed(sessions, servers[i].name))
  }

  lemma HasProblemInFirst(problems: seq<Problem>, alias: string)
    requires problems != []
    ensures HasProblemIn(problems, McpBlock, alias) <==>
            (problems[0].block.McpBlock? && problems[0].alias == alias) || HasProblemIn(problems[1..], McpBlock, alias)
  {
    if i :| 0 < i < |problems| && problems[i].block == McpBlock && problems[i].alias == alias {
      assert problems[1..][i - 1] == problems[i];
    }
    if i :| 0 <= i < |problems[1..]| && problems[1..][i].block == McpBlock && problems[1..][i].alias == alias {
      assert problems[i + 1] == problems[1..][i];
    }
  }

  lemma {:induction false} FirstProblemIsThere(problems: seq<Problem>, server: string)
    ensures FirstProblem(problems, server).Some? <==>
            HasProblemIn(problems, McpBlock, server) || HasProblemIn(problems, McpBlock, "")
  {
    if problems != [] {
      FirstProblemIsThere(problems[1..], server);
      HasProblemInFirst(problems, server);
      HasProblemInFirst(problems, "");
    }
  }

  /** Each outcome stands under its own name, and nothing else changed. */
  predicate Recorded(imported: map<string, Outcome>, outcomes: seq<Outcome>, more: map<string, Outcome>) {
    && (forall i :: 0 <= i < |outcomes| ==> outcomes[i].name in more && more[outcomes[i].name] == outcomes[i])
    && forall n :: n in more ==>
         (n in imported && more[n] == imported[n]) ||
         exists i :: 0 <= i < |outcomes| && outcomes[i].name == n && more[n] == outcomes[i]
  }

  lemma NothingRecorded(imported: map<string, Outcome>)
    ensures Recorded(imported, [], imported)
  {
  }

  lemma RecordedOneMore(imported: map<string, Outcome>, outcomes: seq<Outcome>, more: map<string, Outcome>, o: Outcome)
    requires Recorded(imported, outcomes, more)
    requires forall i :: 0 <= i < |outcomes| ==> outcomes[i].name != o.name
    ensures Recorded(imported, outcomes + [o], more[o.name := o])
  {
    var all, after := outcomes + [o], more[o.name := o];
    assert all[|outcomes|] == o;
    forall n | n in after
      ensures (n in imported && after[n] == imported[n]) ||
              exists i :: 0 <= i < |all| && all[i].name == n && after[n] == all[i]
    {
      if n != o.name && !(n in imported && more[n] == imported[n]) {
        var i :| 0 <= i < |outcomes| && outcomes[i].name == n && more[n] == outcomes[i];
        assert all[i] == outcomes[i];
      }
    }
  }

  lemma {:induction false} RecordedAreHeld(before: seq<Assembled>, sessions: Sessions, s: nat, imported: map<string, Outcome>,
                        outcomes: seq<Outcome>, more: map<string, Outcome>)
    requires s < |sessions| && sessions[s].Some? && |outcomes| == |sessions[s].value|
    requires forall i :: 0 <= i < |outcomes| ==>
               && outcomes[i].name == sessions[s].value[i].server.name
               && (outcomes[i].failure.None? <==> sessions[s].value[i].found.Ok?)
               && (outcomes[i].failure.Some? ==> outcomes[i].tools == [])
    requires ImportedHeld(before, sessions, imported) && Recorded(imported, outcomes, more)
    ensures ImportedHeld(before + AnsweredRows(outcomes, MCP), sessions, more)
  {
    hide AnsweredRows;
    var all := before + AnsweredRows(outcomes, MCP);
    forall n | n in more
      ensures more[n].name == n && RowHeld(all, more[n]) && (more[n].failure.None? ==> Listed(sessions, n))
    {
      if !(n in imported && more[n] == imported[n]) {
        var i :| 0 <= i < |outcomes| && outcomes[i].name == n && more[n] == outcomes[i];
        if outcomes[i].failure.None? {
          forall t | t in outcomes[i].tools ensures Assembled(t, MCP, outcomes[i].source) in all {
            AnsweredAreHeld(outcomes, i, t);
          }
          assert sessions[s].value[i].server.name == n && sessions[s].value[i].found.Ok?;
        }
      }
    }
  }

  lemma NoneRecordedFailed(imported: map<string, Outcome>, outcomes: seq<Outcome>, more: map<string, Outcome>)
    requires Recorded(imported, outcomes, more)
    ensures NoneImportedFailed(imported) && NoneFailed(outcomes) ==> NoneImportedFailed(more)
  {
  }

  lemma NothingImported(rows: seq<Assembled>, sessions: Sessions)
    ensures ImportedHeld(rows, sessions, map[]) && NoneImportedFailed(map[])
  {
  }

  lemma NoServersNoRows(sessions: Sessions, rows: seq<Assembled>)
    ensures RowsCover([], sessions, rows, []) && NoneFailed([])
  {
  }

  lemma FailedIsHeld(rows: seq<Assembled>, o: Outcome)
    requires o.failure.Some? && o.tools == []
    ensures RowHeld(rows, o)
  {
  }

  lemma CoverInMore(servers: seq<McpClient.Server>, sessions: Sessions,
                    rows: seq<Assembled>, more: seq<Assembled>, outcomes: seq<Outcome>)
    requires RowsCover(servers, sessions, rows, outcomes)
    ensures RowsCover(servers, sessions, rows + more, outcomes)
  {
    hide Listed;
  }
}

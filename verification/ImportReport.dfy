/**
  What a finished run says of its hosts and servers: which of their tools it took, and why
  each source that failed is among its problems, told from their answers alone.
 */
module ImportReports {
  import opened Wrappers
  import opened Toolkit
  import opened ToolLists
  import opened BuiltinTools
  import opened ImportedTools
  import opened CustomTools
  import opened AssemblyPlans
  import opened AssemblyReports
  import RemoteTools
  import RemoteReports
  import McpClient
  import McpReports

  // ----- the hosts

  /** The names a list holds before anything is imported. */
  function OwnNames(tools: seq<Assembled>): set<string> {
    set r | r in tools && (r.kind == Application || r.kind == Builtin) :: r.tool.name
  }

  /**
    One row a host, in configured order, each under the host's alias with its failure or with
    the tools it offered that the filters keep; those, and no others, are the remote tools.
   */
  ghost predicate HostsAsAnswered(cfg: Config, src: Sources, filters: seq<Filter>, tools: seq<Assembled>,
                                  outcomes: seq<Outcome>)
  {
    && |outcomes| == (if src.remote.Some? then |cfg.hosts| else 0)
    && (forall i :: 0 <= i < |outcomes| ==>
          HostAsAnswered(cfg.hosts[i], src.remote.value(cfg.hosts[i]), filters, tools, outcomes[i]))
    && (src.remote.Some? ==>
          forall i: nat, t :: i < |outcomes| ==>
            (t in outcomes[i].tools <==>
             (forall f :: f in filters ==> f(t)) && OfferedBy(cfg.hosts, src.remote.value, OwnNames(tools), i, t)))
    && forall r :: r in tools && r.kind == Remote ==>
         exists i :: 0 <= i < |outcomes| && r.tool in outcomes[i].tools && r.source == outcomes[i].source
  }

  predicate HostAsAnswered(host: RemoteTools.Host, found: Result<seq<Descriptor>, string>, filters: seq<Filter>,
                           tools: seq<Assembled>, o: Outcome)
  {
    && o.name == host.name
    && o.source == FromHost(if host.alias != "" then host.alias else host.name)
    && o.failure == (if found.Err? then Some(HostFailed(found.error)) else None)
    && forall t :: t in o.tools ==> Assembled(t, Remote, o.source) in tools
  }

  /** A tool a host offered, usable and built, under a name that is no other offer's and nobody's here. */
  ghost predicate OfferedBy(hosts: seq<RemoteTools.Host>, client: Client, own: set<string>, i: nat, t: Tool)
    requires i < |hosts|
  {
    var asked := Asked(hosts, client);
    exists j: nat :: RemoteReports.Offered(asked, i, j) && asked[i].found.value[j].builds &&
                     RemoteReports.Alone(own, asked, i, j) && WellNamed(t.name) &&
                     t.name == RemoteReports.CalledBy(own, asked, i, j) &&
                     t == Tool(t.name, {}, t.name, Some(Remote), false, false)
  }

  lemma {:induction false} AnsweredFrom(outcomes: seq<Outcome>, kind: Kind, r: Assembled)
    ensures r in AnsweredRows(outcomes, kind) <==>
            exists i :: 0 <= i < |outcomes| && outcomes[i].failure.None? && r.tool in outcomes[i].tools &&
                        r.kind == kind && r.source == outcomes[i].source
  {
    if outcomes != [] {
      var front, last := outcomes[..|outcomes| - 1], outcomes[|outcomes| - 1];
      AnsweredFrom(front, kind, r);
      var own := AsKind(last.tools, kind, last.source);
      assert r in own <==> r.tool in last.tools && r.kind == kind && r.source == last.source by {
        if r.tool in last.tools && r.kind == kind && r.source == last.source {
          var k :| 0 <= k < |last.tools| && last.tools[k] == r.tool;
          assert own[k] == r;
        }
      }
    }
  }

  lemma HostsAre(cfg: Config, src: Sources, rows: seq<Assembled>, p: Parts)
    requires Starts(cfg, src, ForRun) && PartsOf(cfg, src, ForRun, p) && ByKind(p) && Whole(p) == rows
    ensures HostsAsAnswered(cfg, src, FiltersOf(cfg, ForRun), rows, PlanOf(cfg, src, ForRun).remoteRows)
  {
    hide Kept, KeptBy, ServedRows, Entries, AnsweredRows, AfterSessions, CustomSorted, WithMissing, McpRowsOf, FiltersOf,
      Names, Families, FiltersCompile, BuiltinsFit, RemoteProblems, OfferedBy, View, RemoteTools.Resolved, OwnNames;
    var filters := FiltersOf(cfg, ForRun);
    var base := BaseOf(cfg, src, ForRun);
    var outcomes := RemoteOutcomes(filters, Names(base), cfg.hosts, src.remote);
    PartsByView(p);
    OwnAre(p);
    forall r ensures r in p.remote <==>
      exists i :: 0 <= i < |outcomes| && outcomes[i].failure.None? && r.tool in outcomes[i].tools &&
                  r.kind == Remote && r.source == outcomes[i].source
    {
      AnsweredFrom(outcomes, Remote, r);
    }
    if src.remote.Some? && cfg.hosts != [] {
      var imports := Asked(cfg.hosts, src.remote.value);
      var resolved := RemoteTools.Resolved(Names(base), imports);
      assert outcomes == HostOutcomes(filters, resolved);
      forall i: nat | i < |outcomes|
        ensures outcomes[i].failure.Some? ==> outcomes[i].tools == []
        ensures forall t :: t in outcomes[i].tools <==>
                  (forall f :: f in filters ==> f(t)) && OfferedBy(cfg.hosts, src.remote.value, Names(base), i, t)
      {
        HostRow(filters, cfg.hosts, src.remote.value, Names(base), i);
      }
    }
  }

  lemma HostRow(filters: seq<Filter>, hosts: seq<RemoteTools.Host>, client: Client, own: set<string>, i: nat)
    requires i < |hosts|
    ensures var o := RemoteOutcomes(filters, own, hosts, Some(client))[i];
            && (o.failure.Some? ==> o.tools == [])
            && forall t :: t in o.tools <==> (forall f :: f in filters ==> f(t)) && OfferedBy(hosts, client, own, i, t)
  {
    hide Kept, KeptBy, RemoteReports.Alone, RemoteReports.CalledBy, WellNamed, RemoteTools.Resolved;
    var resolved := RemoteTools.Resolved(own, Asked(hosts, client));
    var o := RemoteOutcomes(filters, own, hosts, Some(client))[i];
    AnsweredNone(filters);
    KeptIsAPart(filters, resolved[i].tools);
    forall t ensures t in o.tools <==> (forall f :: f in filters ==> f(t)) && OfferedBy(hosts, client, own, i, t) {
      KeptIsAll(filters, t);
      RemoteReports.RowsHoldWhatIsOffered(own, Asked(hosts, client), i, t);
    }
  }

  lemma OwnAre(p: Parts)
    requires ByKind(p)
    ensures OwnNames(Whole(p)) == Names(p.commands + p.builtins)
  {
    hide View;
    PartsByView(p);
  }

  // ----- the servers

  /** A session lists a server of this name at this place. */
  predicate Lists(sessions: Sessions, s: nat, k: nat, name: string) {
    s < |sessions| && sessions[s].Some? && k < |sessions[s].value| && sessions[s].value[k].server.name == name
  }

  /** And no session after it does. */
  ghost predicate ListsLast(sessions: Sessions, s: nat, k: nat, name: string) {
    Lists(sessions, s, k, name) && forall x: nat, y: nat :: s < x ==> !Lists(sessions, x, y, name)
  }

  function AliasOf(server: McpClient.Server): string {
    if server.alias != "" then server.alias else server.name
  }

  /** A tool a server listed, usable and built, under the server's prefix. */
  predicate ListedBy(l: McpClient.Listing, t: Tool) {
    l.found.Ok? && WellNamed(t.name) && t == Tool(t.name, {}, t.name, Some(MCP), false, false) &&
    exists j :: 0 <= j < |l.found.value| && l.found.value[j].builds && t.name == AliasOf(l.server) + "_" + l.found.value[j].name
  }

  /** The outcome of a server a session listed. */
  ghost predicate Answers(filters: seq<Filter>, l: McpClient.Listing, o: Outcome) {
    && o.name == l.server.name && o.source == FromServer(AliasOf(l.server))
    && o.failure == (if l.found.Err? then Some(ServerFailed(l.found.error)) else None)
    && forall t :: t in o.tools ==> ListedBy(l, t) && forall f :: f in filters ==> f(t)
  }

  /** Why a server no session listed has no tools: the first problem told of it, or of the whole block. */
  predicate FirstToldOf(problems: seq<Problem>, name: string, failure: Option<Failure>) {
    exists m: nat :: m < |problems| && problems[m].block.McpBlock? && problems[m].alias in {name, ""} &&
                failure == Some(problems[m].failure) &&
                forall n: nat :: n < m && problems[n].block.McpBlock? ==> problems[n].alias !in {name, ""}
  }

  /**
    One row a configured server, in order: what the last session that lists it answered, or
    else the first problem told of it. The list's MCP tools are tools the servers listed that
    the filters keep, and of those none is missing under its name.
   */
  ghost predicate ServersAsAnswered(cfg: Config, src: Sources, filters: seq<Filter>, tools: seq<Assembled>,
                                    outcomes: seq<Outcome>, problems: seq<Problem>)
  {
    && |outcomes| == |cfg.servers|
    && (forall i: nat, s: nat, k: nat :: i < |outcomes| && ListsLast(src.mcp, s, k, cfg.servers[i].name) ==>
          Answers(filters, src.mcp[s].value[k], outcomes[i]))
    && (forall i: nat :: i < |outcomes| && (forall s: nat, k: nat :: !Lists(src.mcp, s, k, cfg.servers[i].name)) ==>
          && FirstToldOf(problems, cfg.servers[i].name, outcomes[i].failure)
          && outcomes[i].name == cfg.servers[i].name && outcomes[i].tools == []
          && outcomes[i].source == FromServer(AliasOf(cfg.servers[i])))
    && (forall r :: r in tools && r.kind == MCP ==> cfg.servers != [] && FromListing(filters, src.mcp, r))
    && (cfg.servers != [] ==> NoneIsMissing(filters, src.mcp, tools))
  }

  ghost predicate FromListing(filters: seq<Filter>, sessions: Sessions, r: Assembled) {
    exists s: nat, k: nat, name: string :: Lists(sessions, s, k, name) &&
      ListedBy(sessions[s].value[k], r.tool) && r.source == FromServer(AliasOf(sessions[s].value[k].server)) &&
      forall f :: f in filters ==> f(r.tool)
  }

  ghost predicate NoneIsMissing(filters: seq<Filter>, sessions: Sessions, rows: seq<Assembled>) {
    forall s: nat, k: nat, name: string, t ::
      (Lists(sessions, s, k, name) && ListedBy(sessions[s].value[k], t) && forall f :: f in filters ==> f(t)) ==>
        t.name in Names(rows)
  }

  lemma ServerRow(filters: seq<Filter>, held: set<string>, listings: seq<McpClient.Listing>, k: nat)
    requires k < |listings|
    ensures var outcomes := SessionOutcomes(filters, held, listings);
            && |outcomes| == |listings| && Answers(filters, listings[k], outcomes[k])
            && (outcomes[k].failure.Some? ==> outcomes[k].tools == [])
            && forall t :: t in outcomes[k].tools <==>
                 (forall f :: f in filters ==> f(t)) && ListedBy(listings[k], t) &&
                 !McpReports.HeldBefore(listings, held, k, t.name)
  {
    hide Kept, KeptBy, WellNamed, McpClient.Rows, McpClient.AllTools, McpReports.HeldBefore;
    var rows := McpClient.Rows(listings, held);
    McpClient.RowsAreNew(listings, held);
    AnsweredNone(filters);
    KeptIsAPart(filters, rows[k].tools);
    forall t
      ensures KeptBy(filters, t) <==> forall f :: f in filters ==> f(t)
      ensures t in rows[k].tools <==> ListedBy(listings[k], t) && !McpReports.HeldBefore(listings, held, k, t.name)
    {
      KeptIsAll(filters, t);
      McpReports.RowsHoldWhatIsListed(listings, held, k, t);
      ListedByPlace(listings, k, t);
    }
  }

  lemma ListedByPlace(listings: seq<McpClient.Listing>, k: nat, t: Tool)
    requires k < |listings|
    ensures ListedBy(listings[k], t) <==>
            exists j: nat :: McpReports.Listed(listings, k, j) && listings[k].found.value[j].builds &&
                             t.name == McpReports.ListedAs(listings, k, j) && WellNamed(t.name) &&
                             t == Tool(t.name, {}, t.name, Some(MCP), false, false)
  {
    hide WellNamed;
    if ListedBy(listings[k], t) {
      var j :| 0 <= j < |listings[k].found.value| && listings[k].found.value[j].builds &&
               t.name == AliasOf(listings[k].server) + "_" + listings[k].found.value[j].name;
      assert McpReports.Listed(listings, k, j);
    }
  }

  // ----- one session after another

  lemma ListsInFront(sessions: Sessions, s: nat, k: nat, name: string)
    requires sessions != []
    ensures var n := |sessions| - 1;
            && (Lists(sessions[..n], s, k, name) <==> s < n && Lists(sessions, s, k, name))
            && (s < n ==> sessions[..n][s] == sessions[s])
  {
  }

  lemma {:induction false} McpRowsAreListed(filters: seq<Filter>, p: Progress, sessions: Sessions, r: Assembled)
    requires r in AfterSessions(filters, p, sessions).rows
    ensures r in p.rows || FromListing(filters, sessions, r)
  {
    hide AnsweredRows, RecordAll, FailedRows, Names, SessionOutcomes, ListedBy, AfterSessions;
    if sessions == [] {
      AfterNone(filters, p, sessions);
      assert sessions[..0] == sessions;
    } else {
      var n := |sessions| - 1;
      var before := AfterSessions(filters, p, sessions[..n]);
      OneSessionMore(filters, p, sessions);
      if r in before.rows {
        McpRowsAreListed(filters, p, sessions[..n], r);
        if FromListing(filters, sessions[..n], r) {
          var s: nat, k: nat, name: string :| Lists(sessions[..n], s, k, name) &&
            ListedBy(sessions[..n][s].value[k], r.tool) &&
            r.source == FromServer(AliasOf(sessions[..n][s].value[k].server)) && forall f :: f in filters ==> f(r.tool);
          ListsInFront(sessions, s, k, name);
        }
      } else {
        var listings := sessions[n].value;
        var outcomes := SessionOutcomes(filters, Names(before.rows), listings);
        AnsweredFrom(outcomes, MCP, r);
        var k :| 0 <= k < |outcomes| && outcomes[k].failure.None? && r.tool in outcomes[k].tools &&
                 r.source == outcomes[k].source;
        SessionOutcomesCount(filters, Names(before.rows), listings);
        ServerRow(filters, Names(before.rows), listings, k);
        assert Lists(sessions, n, k, listings[k].server.name);
      }
    }
  }

  lemma SessionOutcomesCount(filters: seq<Filter>, held: set<string>, listings: seq<McpClient.Listing>)
    ensures |SessionOutcomes(filters, held, listings)| == |listings|
  {
    McpClient.RowsAreNew(listings, held);
  }

  lemma OneSessionMore(filters: seq<Filter>, p: Progress, sessions: Sessions)
    requires sessions != []
    ensures var before, last := AfterSessions(filters, p, sessions[..|sessions| - 1]), sessions[|sessions| - 1];
            if last.None? then AfterSessions(filters, p, sessions) == before
            else
              var outcomes := SessionOutcomes(filters, Names(before.rows), last.value);
              AfterSessions(filters, p, sessions) ==
              Progress(before.rows + AnsweredRows(outcomes, MCP), RecordAll(before.imported, outcomes),
                       before.problems + FailedRows(outcomes, McpBlock))
  {
    hide AnsweredRows, RecordAll, FailedRows, Names, SessionOutcomes;
  }

  /** The tools a session lists are in the list once it is imported, unless their names are held. */
  lemma SessionIsThere(filters: seq<Filter>, rows: seq<Assembled>, listings: seq<McpClient.Listing>, k: nat, t: Tool)
    requires k < |listings| && ListedBy(listings[k], t) && forall f :: f in filters ==> f(t)
    ensures t.name in Names(rows + AnsweredRows(SessionOutcomes(filters, Names(rows), listings), MCP))
  {
    hide AnsweredRows, Names, SessionOutcomes, ListedBy, McpClient.Rows;
    var held := Names(rows);
    var outcomes := SessionOutcomes(filters, held, listings);
    var added := AnsweredRows(outcomes, MCP);
    NamesOfMore(rows, added);
    ServerRow(filters, held, listings, k);
    var at := k;
    if t !in outcomes[k].tools && t.name !in held {
      assert McpReports.HeldBefore(listings, held, k, t.name);
      at :| 0 <= at < k && at < |McpClient.Rows(listings, held)| && t.name in NamesIn(McpClient.Rows(listings, held)[at].tools);
      var u :| u in McpClient.Rows(listings, held)[at].tools && u.name == t.name;
      McpReports.RowsHoldWhatIsListed(listings, held, at, u);
      assert u == t by { ListedByShape(listings[k], t); }
      ServerRow(filters, held, listings, at);
      OutcomeKeeps(filters, held, listings, at, t);
    }
    if t.name !in held {
      var r := Assembled(t, MCP, outcomes[at].source);
      AnsweredFrom(outcomes, MCP, r);
      assert t.name in Names(added) by { NameIsHeld(added, t.name); }
    }
  }

  lemma ListedByShape(l: McpClient.Listing, t: Tool)
    requires ListedBy(l, t)
    ensures t == Tool(t.name, {}, t.name, Some(MCP), false, false)
  {
  }

  lemma OutcomeKeeps(filters: seq<Filter>, held: set<string>, listings: seq<McpClient.Listing>, k: nat, t: Tool)
    requires k < |listings| && |McpClient.Rows(listings, held)| == |listings|
    requires t in McpClient.Rows(listings, held)[k].tools && forall f :: f in filters ==> f(t)
    ensures |SessionOutcomes(filters, held, listings)| == |listings|
    ensures t in SessionOutcomes(filters, held, listings)[k].tools
    ensures SessionOutcomes(filters, held, listings)[k].failure.None?
  {
    hide McpClient.Rows, Kept, KeptBy;
    McpClient.RowsAreNew(listings, held);
    KeptIsAll(filters, t);
    KeptIsAPart(filters, McpClient.Rows(listings, held)[k].tools);
  }

  lemma {:induction false} NoneListedIsMissing(filters: seq<Filter>, p: Progress, sessions: Sessions)
    ensures NoneIsMissing(filters, sessions, AfterSessions(filters, p, sessions).rows)
  {
    hide AnsweredRows, RecordAll, FailedRows, Names, SessionOutcomes, ListedBy, AfterSessions;
    if sessions != [] {
      var n := |sessions| - 1;
      var before := AfterSessions(filters, p, sessions[..n]);
      NoneListedIsMissing(filters, p, sessions[..n]);
      OneSessionMore(filters, p, sessions);
      forall s: nat, k: nat, name: string, t | Lists(sessions, s, k, name) && ListedBy(sessions[s].value[k], t) &&
          forall f :: f in filters ==> f(t)
        ensures t.name in Names(AfterSessions(filters, p, sessions).rows)
      {
        ListsInFront(sessions, s, k, name);
        if s < n {
          assert t.name in Names(before.rows);
          if sessions[n].Some? {
            NamesOfMore(before.rows, AnsweredRows(SessionOutcomes(filters, Names(before.rows), sessions[n].value), MCP));
          }
        } else {
          SessionIsThere(filters, before.rows, sessions[n].value, k, t);
        }
      }
    }
  }

  // ----- what is recorded of each server

  lemma {:induction false} RecordAllElsewhere(imported: map<string, Outcome>, outcomes: seq<Outcome>, name: string)
    ensures name in RecordAll(imported, outcomes) <==>
            name in imported || exists i :: 0 <= i < |outcomes| && outcomes[i].name == name
    ensures name in imported && (forall i :: 0 <= i < |outcomes| ==> outcomes[i].name != name) ==>
              RecordAll(imported, outcomes)[name] == imported[name]
  {
    if outcomes != [] {
      RecordAllElsewhere(imported, outcomes[..|outcomes| - 1], name);
    }
  }

  /** A server is recorded exactly when a session lists it, as the last one that does answered. */
  ghost predicate RecordedAsListed(filters: seq<Filter>, sessions: Sessions, imported: map<string, Outcome>, name: string) {
    && (name in imported <==> exists s: nat, k: nat :: Lists(sessions, s, k, name))
    && forall s: nat, k: nat :: ListsLast(sessions, s, k, name) && name in imported ==>
         Answers(filters, sessions[s].value[k], imported[name])
  }

  lemma {:induction false} ImportedAsListed(filters: seq<Filter>, p: Progress, sessions: Sessions, name: string)
    requires SessionsDistinct(sessions) && p.imported == map[]
    ensures RecordedAsListed(filters, sessions, AfterSessions(filters, p, sessions).imported, name)
  {
    hide AnsweredRows, RecordAll, FailedRows, Names, SessionOutcomes, Answers, AfterSessions, RecordedAsListed;
    if sessions == [] {
      AfterNone(filters, p, sessions);
      assert sessions[..0] == sessions;
      NothingRecordedYet(filters, name);
    } else {
      var n := |sessions| - 1;
      ImportedAsListed(filters, p, sessions[..n], name);
      OneSessionMore(filters, p, sessions);
      var before := AfterSessions(filters, p, sessions[..n]);
      if sessions[n].None? {
        RecordedPastNone(filters, sessions, before.imported, name);
      } else {
        RecordedPastOne(filters, sessions, before.imported, Names(before.rows), name);
      }
    }
  }

  lemma NothingRecordedYet(filters: seq<Filter>, name: string)
    ensures RecordedAsListed(filters, [], map[], name)
  {
  }

  lemma RecordedPastNone(filters: seq<Filter>, sessions: Sessions, imported: map<string, Outcome>, name: string)
    requires sessions != [] && sessions[|sessions| - 1].None?
    requires RecordedAsListed(filters, sessions[..|sessions| - 1], imported, name)
    ensures RecordedAsListed(filters, sessions, imported, name)
  {
    hide Answers;
    var n := |sessions| - 1;
    forall s: nat, k: nat
      ensures Lists(sessions[..n], s, k, name) <==> s < n && Lists(sessions, s, k, name)
      ensures s < n ==> sessions[..n][s] == sessions[s]
      ensures Lists(sessions, s, k, name) ==> s < n
    {
      ListsInFront(sessions, s, k, name);
    }
    forall s: nat, k: nat | ListsLast(sessions, s, k, name) ensures ListsLast(sessions[..n], s, k, name) {
    }
  }

  lemma RecordedPastOne(filters: seq<Filter>, sessions: Sessions, imported: map<string, Outcome>, held: set<string>, name: string)
    requires sessions != [] && sessions[|sessions| - 1].Some? && SessionsDistinct(sessions)
    requires RecordedAsListed(filters, sessions[..|sessions| - 1], imported, name)
    ensures RecordedAsListed(filters, sessions,
                             RecordAll(imported, SessionOutcomes(filters, held, sessions[|sessions| - 1].value)), name)
  {
    hide Answers, RecordAll, SessionOutcomes, Recorded;
    var n := |sessions| - 1;
    var listings := sessions[n].value;
    var outcomes := SessionOutcomes(filters, held, listings);
    var after := RecordAll(imported, outcomes);
    SessionAnswers(filters, held, listings);
    assert DistinctServers(listings);
    RecordAllElsewhere(imported, outcomes, name);
    forall s: nat, k: nat
      ensures Lists(sessions[..n], s, k, name) <==> s < n && Lists(sessions, s, k, name)
      ensures s < n ==> sessions[..n][s] == sessions[s]
    {
      ListsInFront(sessions, s, k, name);
    }
    if k :| 0 <= k < |listings| && listings[k].server.name == name {
      assert Lists(sessions, n, k, name) && outcomes[k].name == name;
      RecordAllRecords(imported, outcomes);
      StandsRecorded(imported, outcomes, after, k);
      ServerRow(filters, held, listings, k);
      forall s: nat, y: nat | ListsLast(sessions, s, y, name) ensures s == n && y == k {
        assert s >= n;
      }
    } else {
      assert forall s: nat, k: nat :: Lists(sessions, s, k, name) ==> s < n;
      forall s: nat, k: nat | ListsLast(sessions, s, k, name) ensures ListsLast(sessions[..n], s, k, name) {
      }
    }
  }

  lemma StandsRecorded(imported: map<string, Outcome>, outcomes: seq<Outcome>, more: map<string, Outcome>, k: nat)
    requires Recorded(imported, outcomes, more) && k < |outcomes|
    ensures outcomes[k].name in more && more[outcomes[k].name] == outcomes[k]
  {
  }

  lemma {:induction false} FirstProblemIsFirst(problems: seq<Problem>, name: string)
    requires FirstProblem(problems, name).Some?
    ensures FirstToldOf(problems, name, FirstProblem(problems, name))
  {
    if problems[0].block.McpBlock? && problems[0].alias in {name, ""} {
    } else {
      FirstProblemIsFirst(problems[1..], name);
      var rest := problems[1..];
      var m: nat :| m < |rest| && rest[m].block.McpBlock? && rest[m].alias in {name, ""} &&
                    FirstProblem(rest, name) == Some(rest[m].failure) &&
                    forall n: nat :: n < m && rest[n].block.McpBlock? ==> rest[n].alias !in {name, ""};
      assert problems[m + 1] == rest[m];
      forall n: nat | n < m + 1 && problems[n].block.McpBlock? ensures problems[n].alias !in {name, ""} {
        if n > 0 {
          assert rest[n - 1] == problems[n];
        }
      }
    }
  }

  lemma ServersAre(cfg: Config, src: Sources, policy: Policy, p: Parts)
    requires Succeeds(cfg, src, ForRun, policy) && SessionsDistinct(src.mcp)
    requires PartsOf(cfg, src, ForRun, p) && ByKind(p)
    ensures var plan := PlanOf(cfg, src, ForRun);
            ServersAsAnswered(cfg, src, FiltersOf(cfg, ForRun), Whole(p), plan.mcpRows, plan.problems)
  {
    hide Kept, KeptBy, ServedRows, Entries, AnsweredRows, AfterSessions, CustomSorted, WithMissing, FiltersOf, CustomOk,
      Names, Families, FiltersCompile, BuiltinsFit, RemoteProblems, RemoteOutcomes, View, BaseOf, Answers, FromListing,
      NoneIsMissing, RunImports, SessionsDistinct;
    var filters, plan := FiltersOf(cfg, ForRun), PlanOf(cfg, src, ForRun);
    var before := AfterRemote(filters, BaseOf(cfg, src, ForRun), cfg, src, src.unbound);
    PartsByView(p);
    if cfg.servers == [] {
      NoMcpPart(cfg, src, p);
    } else {
      var q := AfterSessions(filters, before, src.mcp);
      NoneListedIsMissing(filters, before, src.mcp);
      MissingInMore(filters, src.mcp, plan.rows, p.custom);
      assert plan.rows + p.custom == Whole(p);
      forall r | r in Whole(p) && r.kind == MCP ensures FromListing(filters, src.mcp, r) {
        McpRowIsListed(cfg, src, p, r);
      }
      WithMissingAccounts(cfg.servers, q.imported, q.problems);
      forall i: nat | i < |cfg.servers|
        ensures ServerAsAnswered(filters, src.mcp, cfg.servers[i], plan.mcpRows[i], plan.problems)
      {
        ImportedAsListed(filters, before, src.mcp, cfg.servers[i].name);
        assert Accounted(cfg.servers[i].name, q.imported, plan.problems);
        RowIsAsAnswered(filters, src.mcp, cfg.servers[i], q.imported, plan.problems);
      }
    }
  }

  /** One server's row. */
  ghost predicate ServerAsAnswered(filters: seq<Filter>, sessions: Sessions, server: McpClient.Server, o: Outcome,
                                   problems: seq<Problem>)
  {
    && (forall s: nat, k: nat :: ListsLast(sessions, s, k, server.name) ==> Answers(filters, sessions[s].value[k], o))
    && ((forall s: nat, k: nat :: !Lists(sessions, s, k, server.name)) ==>
          && FirstToldOf(problems, server.name, o.failure)
          && o.name == server.name && o.tools == [] && o.source == FromServer(AliasOf(server)))
  }

  lemma RowIsAsAnswered(filters: seq<Filter>, sessions: Sessions, server: McpClient.Server, imported: map<string, Outcome>,
                        problems: seq<Problem>)
    requires RecordedAsListed(filters, sessions, imported, server.name) && Accounted(server.name, imported, problems)
    ensures ServerAsAnswered(filters, sessions, server, RowFor(server, imported, problems), problems)
  {
    hide Answers, HasProblemIn;
    FirstProblemIsThere(problems, server.name);
    if server.name !in imported {
      FirstProblemIsFirst(problems, server.name);
    }
  }

  lemma NoMcpPart(cfg: Config, src: Sources, p: Parts)
    requires Starts(cfg, src, ForRun) && PartsOf(cfg, src, ForRun, p) && cfg.servers == []
    ensures p.mcp == []
  {
    hide Kept, ServedRows, Entries, AnsweredRows, CustomSorted, FiltersOf, Names, Families, FiltersCompile, BuiltinsFit,
      RemoteProblems, RemoteOutcomes;
    assert |p.commands + p.builtins + p.remote + p.mcp| == |p.commands + p.builtins + p.remote|;
  }

  lemma McpRowIsListed(cfg: Config, src: Sources, p: Parts, r: Assembled)
    requires Starts(cfg, src, ForRun) && PartsOf(cfg, src, ForRun, p) && ByKind(p) && cfg.servers != []
    requires r in Whole(p) && r.kind == MCP
    ensures FromListing(FiltersOf(cfg, ForRun), src.mcp, r)
  {
    hide Kept, ServedRows, Entries, AnsweredRows, CustomSorted, FiltersOf, Names, Families, FiltersCompile, BuiltinsFit,
      RemoteProblems, RemoteOutcomes, AfterSessions, FromListing, View, WithMissing, McpRowsOf;
    PartsByView(p);
    var filters := FiltersOf(cfg, ForRun);
    var before := AfterRemote(filters, BaseOf(cfg, src, ForRun), cfg, src, src.unbound);
    assert r in p.mcp && r in PlanOf(cfg, src, ForRun).rows;
    assert before.rows == p.commands + p.builtins + p.remote;
    McpRowsAreListed(filters, before, src.mcp, r);
  }

  lemma MissingInMore(filters: seq<Filter>, sessions: Sessions, rows: seq<Assembled>, more: seq<Assembled>)
    requires NoneIsMissing(filters, sessions, rows)
    ensures NoneIsMissing(filters, sessions, rows + more)
  {
    hide Lists, ListedBy;
    NamesOfMore(rows, more);
  }

  // ----- the problems

  /** Why a problem that the caller did not report is there. */
  predicate Explained(cfg: Config, src: Sources, p: Problem) {
    match p.failure
    case ClientMissing =>
      p.block.RemoteBlock? && p.alias == "" && cfg.hosts != [] && src.remote.None? && !Told(src.unbound, RemoteBlock, "")
    case HostFailed(reason) =>
      p.block.RemoteBlock? && src.remote.Some? &&
      exists i :: 0 <= i < |cfg.hosts| && cfg.hosts[i].name == p.alias && src.remote.value(cfg.hosts[i]) == Err(reason)
    case ServerFailed(reason) =>
      p.block.McpBlock? && cfg.servers != [] && FailsToList(src.mcp, p.alias, reason)
    case SessionMissing(server) =>
      p.block.McpBlock? && p.alias == server && (exists i :: 0 <= i < |cfg.servers| && cfg.servers[i].name == server) &&
      NobodyLists(src.mcp, server) && !Told(src.unbound, McpBlock, server) && !Told(src.unbound, McpBlock, "")
    case _ => false
  }

  predicate FailsToList(sessions: Sessions, name: string, reason: string) {
    exists s, k :: 0 <= s < |sessions| && sessions[s].Some? && 0 <= k < |sessions[s].value| &&
                   sessions[s].value[k].server.name == name && sessions[s].value[k].found == Err(reason)
  }

  predicate NobodyLists(sessions: Sessions, name: string) {
    forall s, k :: 0 <= s < |sessions| && sessions[s].Some? && 0 <= k < |sessions[s].value| ==>
                     sessions[s].value[k].server.name != name
  }

  /**
    The problems are the caller's own and then those of the sources that failed: each one
    stands for such a source, and each such source has one.
   */
  ghost predicate ProblemsAreOfSources(cfg: Config, src: Sources, problems: seq<Problem>) {
    && src.unbound <= problems
    && (forall m :: |src.unbound| <= m < |problems| ==> Explained(cfg, src, problems[m]))
    && (cfg.hosts != [] && src.remote.None? ==> Told(problems, RemoteBlock, ""))
    && (src.remote.Some? ==>
          forall i, reason :: 0 <= i < |cfg.hosts| && src.remote.value(cfg.hosts[i]) == Err(reason) ==>
            Problem(RemoteBlock, cfg.hosts[i].name, HostFailed(reason)) in problems)
    && (cfg.servers != [] ==>
          forall name, reason :: FailsToList(src.mcp, name, reason) ==>
            Problem(McpBlock, name, ServerFailed(reason)) in problems)
    && forall i :: 0 <= i < |cfg.servers| && NobodyLists(src.mcp, cfg.servers[i].name) ==>
         Told(problems, McpBlock, cfg.servers[i].name) || Told(problems, McpBlock, "")
  }

  predicate Told(problems: seq<Problem>, block: Block, alias: string) {
    exists p :: p in problems && p.block == block && p.alias == alias
  }

  lemma ToldIs(problems: seq<Problem>, block: Block, alias: string)
    ensures Told(problems, block, alias) <==> HasProblemIn(problems, block, alias)
  {
  }

  lemma {:induction false} FailedFrom(outcomes: seq<Outcome>, block: Block, p: Problem)
    ensures p in FailedRows(outcomes, block) <==>
            exists i :: 0 <= i < |outcomes| && outcomes[i].failure.Some? &&
                        p == Problem(block, outcomes[i].name, outcomes[i].failure.value)
  {
    if outcomes != [] {
      FailedFrom(outcomes[..|outcomes| - 1], block, p);
    }
  }

  lemma {:induction false} SessionProblems(filters: seq<Filter>, p: Progress, sessions: Sessions)
    returns (added: seq<Problem>)
    ensures AfterSessions(filters, p, sessions).problems == p.problems + added
    ensures forall pr :: pr in added <==>
              pr.failure.ServerFailed? && pr.block.McpBlock? && FailsToList(sessions, pr.alias, pr.failure.reason)
  {
    hide AnsweredRows, RecordAll, FailedRows, Names, SessionOutcomes, AfterSessions, FailsToList;
    added := [];
    if sessions == [] {
      AfterNone(filters, p, sessions);
      assert sessions[..0] == sessions;
      assert forall name, reason :: !FailsToList(sessions, name, reason) by { NoneFailsToList(); }
    } else {
      var n := |sessions| - 1;
      added := SessionProblems(filters, p, sessions[..n]);
      OneSessionMore(filters, p, sessions);
      var held := Names(AfterSessions(filters, p, sessions[..n]).rows);
      forall name, reason
        ensures FailsToList(sessions, name, reason) <==>
                FailsToList(sessions[..n], name, reason) || FailsToList(sessions[n..], name, reason)
      {
        FailsInFront(sessions, name, reason);
      }
      if sessions[n].Some? {
        var outcomes := SessionOutcomes(filters, held, sessions[n].value);
        added := added + FailedRows(outcomes, McpBlock);
        forall pr ensures pr in FailedRows(outcomes, McpBlock) <==>
          pr.failure.ServerFailed? && pr.block.McpBlock? && FailsToList(sessions[n..], pr.alias, pr.failure.reason)
        {
          SessionFailures(filters, held, sessions[n..], pr);
        }
      } else {
        assert forall name, reason :: !FailsToList(sessions[n..], name, reason) by { NoSessionFails(sessions, n); }
      }
    }
  }

  lemma NoneFailsToList()
    ensures forall name, reason :: !FailsToList([], name, reason)
  {
  }

  lemma NoSessionFails(sessions: Sessions, n: nat)
    requires n == |sessions| - 1 && sessions[n].None?
    ensures forall name, reason :: !FailsToList(sessions[n..], name, reason)
  {
  }

  lemma FailsInFront(sessions: Sessions, name: string, reason: string)
    requires sessions != []
    ensures FailsToList(sessions, name, reason) <==>
            FailsToList(sessions[..|sessions| - 1], name, reason) || FailsToList(sessions[|sessions| - 1..], name, reason)
  {
    var n := |sessions| - 1;
    assert forall s :: 0 <= s < n ==> sessions[..n][s] == sessions[s];
    assert sessions[n..][0] == sessions[n];
  }

  lemma SessionFailures(filters: seq<Filter>, held: set<string>, last: Sessions, pr: Problem)
    requires |last| == 1 && last[0].Some?
    ensures pr in FailedRows(SessionOutcomes(filters, held, last[0].value), McpBlock) <==>
            pr.failure.ServerFailed? && pr.block.McpBlock? && FailsToList(last, pr.alias, pr.failure.reason)
  {
    hide SessionOutcomes, FailedRows, ListedBy, McpReports.HeldBefore;
    var listings := last[0].value;
    var outcomes := SessionOutcomes(filters, held, listings);
    FailedFrom(outcomes, McpBlock, pr);
    SessionOutcomesCount(filters, held, listings);
    forall k: nat | k < |listings|
      ensures outcomes[k].name == listings[k].server.name
      ensures outcomes[k].failure == if listings[k].found.Err? then Some(ServerFailed(listings[k].found.error)) else None
    {
      ServerRow(filters, held, listings, k);
    }
  }

  lemma {:induction false} MissingProblems(servers: seq<McpClient.Server>, imported: map<string, Outcome>, problems: seq<Problem>)
    ensures var all := WithMissing(servers, imported, problems);
            && problems <= all
            && forall m :: |problems| <= m < |all| ==> IsMissing(servers, imported, problems, all[m])
  {
    hide Accounted;
    if servers != [] {
      var front, name := servers[..|servers| - 1], servers[|servers| - 1].name;
      var before, all := WithMissing(front, imported, problems), WithMissing(servers, imported, problems);
      MissingProblems(front, imported, problems);
      forall m | |problems| <= m < |all| ensures IsMissing(servers, imported, problems, all[m]) {
        if m < |before| {
          assert all[m] == before[m];
          var i :| 0 <= i < |front| && !Accounted(front[i].name, imported, problems) &&
                   before[m] == Problem(McpBlock, front[i].name, SessionMissing(front[i].name));
          assert servers[i] == front[i];
        } else if Accounted(name, imported, problems) {
          AccountedInMore(name, imported, problems, before);
        }
      }
    }
  }

  /** A problem for a configured server that nothing so far accounts for. */
  predicate IsMissing(servers: seq<McpClient.Server>, imported: map<string, Outcome>, problems: seq<Problem>, p: Problem) {
    exists i :: 0 <= i < |servers| && !Accounted(servers[i].name, imported, problems) &&
                p == Problem(McpBlock, servers[i].name, SessionMissing(servers[i].name))
  }

  lemma NotTold(name: string, imported: map<string, Outcome>, unbound: seq<Problem>, problems: seq<Problem>)
    requires !Accounted(name, imported, problems) && unbound <= problems
    ensures name !in imported && !Told(unbound, McpBlock, name) && !Told(unbound, McpBlock, "")
  {
    hide Told, HasProblemIn;
    forall alias | Told(unbound, McpBlock, alias) ensures HasProblemIn(problems, McpBlock, alias) {
      ToldIs(unbound, McpBlock, alias);
      HasProblemInMore(unbound, problems, McpBlock, alias);
    }
  }

  lemma HostFailures(cfg: Config, src: Sources, filters: seq<Filter>, names: set<string>, p: Problem)
    requires cfg.hosts != [] && src.remote.Some?
    ensures p in FailedRows(RemoteOutcomes(filters, names, cfg.hosts, src.remote), RemoteBlock) <==>
            p.failure.HostFailed? && p.block.RemoteBlock? &&
            exists i :: 0 <= i < |cfg.hosts| && cfg.hosts[i].name == p.alias &&
                        src.remote.value(cfg.hosts[i]) == Err(p.failure.reason)
  {
    hide FailedRows, RemoteTools.Resolved, Kept;
    FailedFrom(RemoteOutcomes(filters, names, cfg.hosts, src.remote), RemoteBlock, p);
  }

  /** What the remote import adds to the caller's problems. */
  lemma RemoteProblemsAre(cfg: Config, src: Sources, filters: seq<Filter>, names: set<string>)
    returns (added: seq<Problem>)
    ensures RemoteProblems(filters, names, cfg.hosts, src.remote, src.unbound) == src.unbound + added
    ensures forall p :: p in added ==> Explained(cfg, src, p)
    ensures cfg.hosts != [] && src.remote.None? ==> Told(src.unbound + added, RemoteBlock, "")
    ensures src.remote.Some? ==>
              forall i, reason :: 0 <= i < |cfg.hosts| && src.remote.value(cfg.hosts[i]) == Err(reason) ==>
                Problem(RemoteBlock, cfg.hosts[i].name, HostFailed(reason)) in added
  {
    hide FailedRows, RemoteOutcomes, FailsToList, NobodyLists;
    var all := RemoteProblems(filters, names, cfg.hosts, src.remote, src.unbound);
    added := all[|src.unbound|..];
    ToldIs(src.unbound, RemoteBlock, "");
    if cfg.hosts != [] && src.remote.Some? {
      forall p ensures p in added <==>
        p.failure.HostFailed? && p.block.RemoteBlock? &&
        exists i :: 0 <= i < |cfg.hosts| && cfg.hosts[i].name == p.alias &&
                    src.remote.value(cfg.hosts[i]) == Err(p.failure.reason)
      {
        HostFailures(cfg, src, filters, names, p);
      }
    } else if cfg.hosts != [] && !Told(src.unbound, RemoteBlock, "") {
      assert all[|src.unbound|] == Problem(RemoteBlock, "", ClientMissing);
      assert all[|src.unbound|] in all;
    }
  }

  lemma NobodyListsIs(filters: seq<Filter>, sessions: Sessions, imported: map<string, Outcome>, name: string)
    requires RecordedAsListed(filters, sessions, imported, name)
    ensures NobodyLists(sessions, name) <==> name !in imported
  {
    hide Answers;
    if name in imported {
      var s: nat, k: nat :| Lists(sessions, s, k, name);
    } else {
      forall s, k | 0 <= s < |sessions| && sessions[s].Some? && 0 <= k < |sessions[s].value|
        ensures sessions[s].value[k].server.name != name
      {
        assert !Lists(sessions, s, k, name);
      }
    }
  }

  lemma MissingIsTold(servers: seq<McpClient.Server>, i: nat, imported: map<string, Outcome>, all: seq<Problem>)
    requires i < |servers| && AllAccounted(servers, imported, all) && servers[i].name !in imported
    ensures Told(all, McpBlock, servers[i].name) || Told(all, McpBlock, "")
  {
    hide Told, HasProblemIn;
    assert Accounted(servers[i].name, imported, all);
    ToldIs(all, McpBlock, servers[i].name);
    ToldIs(all, McpBlock, "");
  }

  lemma MissingIsExplained(cfg: Config, src: Sources, imported: map<string, Outcome>, problems: seq<Problem>, p: Problem)
    requires IsMissing(cfg.servers, imported, problems, p) && src.unbound <= problems
    requires forall i :: 0 <= i < |cfg.servers| && cfg.servers[i].name !in imported ==>
                           NobodyLists(src.mcp, cfg.servers[i].name)
    ensures Explained(cfg, src, p)
  {
    hide NobodyLists, Told, Accounted;
    var i :| 0 <= i < |cfg.servers| && !Accounted(cfg.servers[i].name, imported, problems) &&
             p == Problem(McpBlock, cfg.servers[i].name, SessionMissing(cfg.servers[i].name));
    NotTold(cfg.servers[i].name, imported, src.unbound, problems);
  }

  /** What the MCP import adds to the problems so far. */
  lemma McpProblemsAre(cfg: Config, src: Sources, filters: seq<Filter>, p: Progress) returns (added: seq<Problem>)
    requires cfg.servers != [] && SessionsDistinct(src.mcp) && p.imported == map[] && src.unbound <= p.problems
    ensures var q := AfterSessions(filters, p, src.mcp);
            WithMissing(cfg.servers, q.imported, q.problems) == p.problems + added
    ensures forall pr :: pr in added ==> Explained(cfg, src, pr)
    ensures forall name, reason :: FailsToList(src.mcp, name, reason) ==> Problem(McpBlock, name, ServerFailed(reason)) in added
    ensures forall i :: 0 <= i < |cfg.servers| && NobodyLists(src.mcp, cfg.servers[i].name) ==>
              Told(p.problems + added, McpBlock, cfg.servers[i].name) || Told(p.problems + added, McpBlock, "")
  {
    hide AfterSessions, FailsToList, NobodyLists, WithMissing, RecordedAsListed, Told, SessionsDistinct, Accounted,
      AllAccounted, IsMissing;
    var q := AfterSessions(filters, p, src.mcp);
    var all := WithMissing(cfg.servers, q.imported, q.problems);
    var failed := SessionProblems(filters, p, src.mcp);
    MissingProblems(cfg.servers, q.imported, q.problems);
    WithMissingAccounts(cfg.servers, q.imported, q.problems);
    added := all[|p.problems|..];
    assert p.problems + added == all;
    forall i | 0 <= i < |cfg.servers|
      ensures NobodyLists(src.mcp, cfg.servers[i].name) <==> cfg.servers[i].name !in q.imported
      ensures cfg.servers[i].name !in q.imported ==>
                Told(p.problems + added, McpBlock, cfg.servers[i].name) || Told(p.problems + added, McpBlock, "")
    {
      ImportedAsListed(filters, p, src.mcp, cfg.servers[i].name);
      NobodyListsIs(filters, src.mcp, q.imported, cfg.servers[i].name);
      if cfg.servers[i].name !in q.imported {
        MissingIsTold(cfg.servers, i, q.imported, all);
      }
    }
    forall pr | pr in added ensures Explained(cfg, src, pr) {
      var m :| 0 <= m < |added| && added[m] == pr;
      if m < |failed| {
        assert pr == failed[m];
      } else {
        assert pr == all[m + |p.problems|] && IsMissing(cfg.servers, q.imported, q.problems, pr);
        MissingIsExplained(cfg, src, q.imported, q.problems, pr);
      }
    }
    forall name, reason | FailsToList(src.mcp, name, reason)
      ensures Problem(McpBlock, name, ServerFailed(reason)) in added
    {
      var pr := Problem(McpBlock, name, ServerFailed(reason));
      var m :| 0 <= m < |failed| && failed[m] == pr;
      assert added[m] == pr;
    }
  }

  lemma ToldInMore(problems: seq<Problem>, more: seq<Problem>, block: Block, alias: string)
    requires Told(problems, block, alias)
    ensures Told(problems + more, block, alias)
  {
  }

  lemma ProblemsAre(cfg: Config, src: Sources)
    requires Starts(cfg, src, ForRun) && SessionsDistinct(src.mcp)
    ensures ProblemsAreOfSources(cfg, src, PlanOf(cfg, src, ForRun).problems)
  {
    hide AfterSessions, FailsToList, NobodyLists, WithMissing, Told, SessionsDistinct, RemoteProblems, RemoteOutcomes,
      AnsweredRows, BaseOf, FiltersOf, FiltersCompile, Entries, Families, BuiltinsFit, Names, Kept, NamesIn, Explained;
    var filters, base := FiltersOf(cfg, ForRun), BaseOf(cfg, src, ForRun);
    var remote := RemoteProblemsAre(cfg, src, filters, Names(base));
    var p := AfterRemote(filters, base, cfg, src, src.unbound);
    var problems := PlanOf(cfg, src, ForRun).problems;
    var added := remote;
    if cfg.servers != [] {
      var mcp := McpProblemsAre(cfg, src, filters, p);
      added := remote + mcp;
      assert (src.unbound + remote) + mcp == src.unbound + added;
      if cfg.hosts != [] && src.remote.None? {
        ToldInMore(src.unbound + remote, mcp, RemoteBlock, "");
      }
    }
    assert problems == src.unbound + added;
  }

  // ----- the imports as a whole

  /** What a run holds of its imports. */
  ghost predicate ImportedAsAnswered(cfg: Config, src: Sources, filters: seq<Filter>, tools: seq<Assembled>,
                                     remoteRows: seq<Outcome>, mcpRows: seq<Outcome>, problems: seq<Problem>)
  {
    && HostsAsAnswered(cfg, src, filters, tools, remoteRows)
    && ServersAsAnswered(cfg, src, filters, tools, mcpRows, problems)
    && ProblemsAreOfSources(cfg, src, problems)
  }

  /** A run that succeeds holds what its hosts and servers answered. */
  lemma RunAsAnswered(cfg: Config, src: Sources, policy: Policy, tools: seq<Assembled>)
    requires Succeeds(cfg, src, ForRun, policy) && AssemblesTo(cfg, src, ForRun, tools) && SessionsDistinct(src.mcp)
    ensures var plan := PlanOf(cfg, src, ForRun);
            ImportedAsAnswered(cfg, src, FiltersOf(cfg, ForRun), tools, plan.remoteRows, plan.mcpRows, plan.problems)
  {
    hide HostsAsAnswered, ServersAsAnswered, ProblemsAreOfSources, FiltersOf, FiltersCompile, Families, Entries, BuiltinsFit,
      Kept, NamesIn, RunImports, RunPlan, CustomOk, CustomSorted, SessionsDistinct, ServedRows, View, RemoteNames;
    var p := InParts(cfg, src, ForRun, tools);
    HostsAre(cfg, src, tools, p);
    ServersAre(cfg, src, policy, p);
    ProblemsAre(cfg, src);
  }
}

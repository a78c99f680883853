/**
  What a finished assembly says of the configuration it is of: which tools each source gave,
  which were left out and why, told from the configuration and the answers alone.
 */
module AssemblyReports {
  import opened Wrappers
  import opened Toolkit
  import opened NameOrder
  import opened ToolLists
  import opened BuiltinTools
  import opened ImportedTools
  import opened CustomTools
  import opened AssemblyPlans

  // ----- the filters

  /** The filters are the compiled include and exclude, then on a served surface those of expose.agent.tools. */
  ghost predicate FiltersAsConfigured(cfg: Config, surface: Surface, filters: seq<Filter>) {
    var exposed := (surface.ForMCP? || surface.ForA2A?) && cfg.exposed.Some?;
    && |filters| == (if exposed then 4 else 2)
    && cfg.includes == Ok(filters[0]) && cfg.excludes == Ok(filters[1])
    && (exposed ==> cfg.exposed.value.0 == Ok(filters[2]) && cfg.exposed.value.1 == Ok(filters[3]))
  }

  lemma FiltersAre(cfg: Config, surface: Surface)
    requires FiltersCompile(cfg, surface)
    ensures FiltersAsConfigured(cfg, surface, FiltersOf(cfg, surface))
  {
    var specs, filters := FilterSpecs(cfg, surface), FiltersOf(cfg, surface);
    assert specs[0].1 == Ok(filters[0]) && specs[1].1 == Ok(filters[1]);
    if |specs| == 4 {
      assert specs[2].1 == Ok(filters[2]) && specs[3].1 == Ok(filters[3]);
    }
  }

  /** A filter that does not compile is named, the first one in the order they apply. */
  predicate BadFilterIsNamed(cfg: Config, surface: Surface, failure: Option<Failure>) {
    if cfg.includes.Err? then failure == Some(BadFilter("include"))
    else if cfg.excludes.Err? then failure == Some(BadFilter("exclude"))
    else if surface.ForRun? || cfg.exposed.None? then true
    else if cfg.exposed.value.0.Err? then failure == Some(BadFilter("expose.agent.tools.include"))
    else cfg.exposed.value.1.Err? ==> failure == Some(BadFilter("expose.agent.tools.exclude"))
  }

  lemma FirstBadFilter(cfg: Config, surface: Surface, i: nat)
    requires i < |FilterSpecs(cfg, surface)| && FilterSpecs(cfg, surface)[i].1.Err?
    requires forall j :: 0 <= j < i ==> FilterSpecs(cfg, surface)[j].1.Ok?
    ensures BadFilterIsNamed(cfg, surface, Some(BadFilter(FilterSpecs(cfg, surface)[i].0)))
  {
    var specs := FilterSpecs(cfg, surface);
    assert specs[0] == ("include", cfg.includes) && specs[1] == ("exclude", cfg.excludes);
    if |specs| == 4 {
      assert specs[2] == ("expose.agent.tools.include", cfg.exposed.value.0);
      assert specs[3] == ("expose.agent.tools.exclude", cfg.exposed.value.1);
    }
  }

  lemma NoBadFilter(cfg: Config, surface: Surface)
    requires FiltersCompile(cfg, surface)
    ensures forall failure :: BadFilterIsNamed(cfg, surface, failure)
  {
    FiltersAre(cfg, surface);
  }

  // ----- the built-ins

  /** Every built-in the configuration enables, in the order of the families. */
  function AllBuiltins(cfg: Config): seq<Tool>
    requires cfg.harness.Ok?
  {
    cfg.humanInTheLoop + cfg.memory + cfg.knowledge + cfg.harness.value
  }

  /** A built-in is of the family its source says, which has its store when that is served. */
  predicate OfItsFamily(cfg: Config, src: Sources, surface: Surface, r: Assembled)
    requires cfg.harness.Ok?
  {
    match r.source
    case FromHumanInTheLoop => r.tool in cfg.humanInTheLoop
    case FromMemory => r.tool in cfg.memory && (surface.ForRun? || src.memory)
    case FromKnowledge => r.tool in cfg.knowledge && (surface.ForRun? || src.knowledge)
    case FromTools => r.tool in cfg.harness.value
    case _ => false
  }

  /**
    A served surface holds just the built-ins that declare it and that no filter drops; each
    of the others is withheld, as agent-only when it does not declare the surface and else as
    filtered. A run holds every built-in the filters keep and withholds none.
   */
  ghost predicate BuiltinsAsConfigured(cfg: Config, src: Sources, surface: Surface, filters: seq<Filter>,
                                       tools: seq<Assembled>, withheld: seq<Withheld>)
    requires cfg.harness.Ok?
  {
    && (forall r :: r in tools && r.kind == Builtin ==>
          && (surface.ForMCP? ==> r.tool.onMCP) && (surface.ForA2A? ==> r.tool.onA2A)
          && (forall f :: f in filters ==> f(r.tool)) && OfItsFamily(cfg, src, surface, r))
    && (forall t :: t in AllBuiltins(cfg) && (surface.ForMCP? ==> t.onMCP) && (surface.ForA2A? ==> t.onA2A)
                    && (forall f :: f in filters ==> f(t)) ==>
          exists r :: r in tools && r.kind == Builtin && r.tool == t)
    && (surface.ForRun? ==> withheld == [])
    && (!surface.ForRun? ==> |View(tools, {Builtin})| + |withheld| == |AllBuiltins(cfg)|)
    && (surface.ForMCP? ==>
          forall w :: w in withheld <==>
            exists t :: t in AllBuiltins(cfg) && t.name == w.tool &&
              if w.reason.AgentOnly? then !t.onMCP else t.onMCP && exists f :: f in filters && !f(t))
    && (surface.ForA2A? ==>
          forall w :: w in withheld <==>
            exists t :: t in AllBuiltins(cfg) && t.name == w.tool &&
              if w.reason.AgentOnly? then !t.onA2A else t.onA2A && exists f :: f in filters && !f(t))
  }

  function EntryTools(entries: seq<Entry>): (r: seq<Tool>)
    ensures |r| == |entries| && forall i :: 0 <= i < |r| ==> r[i] == entries[i].tool
  {
    seq(|entries|, i requires 0 <= i < |entries| => entries[i].tool)
  }

  lemma EntriesOfFour(cfg: Config, src: Sources)
    requires cfg.harness.Ok?
    ensures Entries(Families(cfg, src)) ==
            FamilyEntries(Families(cfg, src)[0]) + FamilyEntries(Families(cfg, src)[1]) +
            FamilyEntries(Families(cfg, src)[2]) + FamilyEntries(Families(cfg, src)[3])
    ensures EntryTools(Entries(Families(cfg, src))) == AllBuiltins(cfg)
  {
    hide Entries;
    var f := Families(cfg, src);
    EntriesOneMore(f);
    EntriesOneMore(f[..3]);
    EntriesOneMore(f[..2]);
    EntriesOneMore(f[..1]);
    assert f[..3][..2] == f[..2] && f[..2][..1] == f[..1] && f[..1][..0] == f[..0];
    assert Entries([]) == [] by { NoEntries(); }
  }

  lemma NoEntries()
    ensures Entries([]) == []
  {
  }

  lemma EntryOfFamily(cfg: Config, src: Sources, surface: Surface, e: Entry)
    requires cfg.harness.Ok? && e in Entries(Families(cfg, src)) && (surface.ForRun? || e.ready)
    ensures OfItsFamily(cfg, src, surface, Assembled(e.tool, Builtin, e.source))
  {
    hide Entries;
    EntriesOfFour(cfg, src);
  }

  /** Where each served row comes from. */
  lemma {:induction false} ServedFrom(filters: seq<Filter>, surface: Surface, entries: seq<Entry>, r: Assembled)
    ensures r in ServedRows(filters, surface, entries) <==>
            exists i :: 0 <= i < |entries| && r == Assembled(entries[i].tool, Builtin, entries[i].source) &&
                        Served(filters, surface, entries[i].tool)
  {
    hide Served;
    if entries != [] {
      ServedFrom(filters, surface, entries[..|entries| - 1], r);
    }
  }

  lemma {:induction false} WithheldFrom(filters: seq<Filter>, surface: Surface, entries: seq<Entry>, w: Withheld)
    requires !surface.ForRun?
    ensures w in WithheldRows(filters, surface, entries) <==>
            exists i :: 0 <= i < |entries| && w == WhyWithheld(entries[i], surface) &&
                        !Served(filters, surface, entries[i].tool)
  {
    hide Served, WithheldReason;
    if entries != [] {
      WithheldFrom(filters, surface, entries[..|entries| - 1], w);
    }
  }

  lemma {:induction false} RunWithholdsNone(filters: seq<Filter>, entries: seq<Entry>)
    ensures WithheldRows(filters, ForRun, entries) == []
  {
    if entries != [] {
      RunWithholdsNone(filters, entries[..|entries| - 1]);
    }
  }

  lemma ServedIs(filters: seq<Filter>, surface: Surface, t: Tool)
    ensures Served(filters, surface, t) <==>
            (surface.ForMCP? ==> t.onMCP) && (surface.ForA2A? ==> t.onA2A) && forall f :: f in filters ==> f(t)
  {
    KeptIsAll(filters, t);
  }

  lemma WhyIs(filters: seq<Filter>, surface: Surface, e: Entry)
    requires !surface.ForRun? && !Served(filters, surface, e.tool)
    ensures var declares := if surface.ForMCP? then e.tool.onMCP else e.tool.onA2A;
            && WhyWithheld(e, surface) == Withheld(e.tool.name, if declares then Filtered else AgentOnly)
            && (declares ==> exists f :: f in filters && !f(e.tool))
  {
    KeptIsAll(filters, e.tool);
  }

  lemma BuiltinsAre(cfg: Config, src: Sources, surface: Surface, filters: seq<Filter>,
                    tools: seq<Assembled>, claimed: set<string>)
    requires cfg.harness.Ok?
    requires var entries := Entries(Families(cfg, src));
             && BuiltinsFit(filters, surface, claimed, entries)
             && (forall r :: r in tools && r.kind == Builtin <==> r in ServedRows(filters, surface, entries))
             && View(tools, {Builtin}) == ToolsOf(ServedRows(filters, surface, entries))
    ensures BuiltinsAsConfigured(cfg, src, surface, filters, tools,
                                 WithheldRows(filters, surface, Entries(Families(cfg, src))))
  {
    hide Served, Entries, View, OfItsFamily, WithheldReason, WhyWithheld, ServedRows, WithheldRows;
    var entries := Entries(Families(cfg, src));
    var withheld := WithheldRows(filters, surface, entries);
    EntriesOfFour(cfg, src);
    var all := EntryTools(entries);
    forall r | r in tools && r.kind == Builtin
      ensures Served(filters, surface, r.tool) && OfItsFamily(cfg, src, surface, r)
      ensures (surface.ForMCP? ==> r.tool.onMCP) && (surface.ForA2A? ==> r.tool.onA2A) && forall f :: f in filters ==> f(r.tool)
    {
      ServedFrom(filters, surface, entries, r);
      var i :| 0 <= i < |entries| && r == Assembled(entries[i].tool, Builtin, entries[i].source) &&
               Served(filters, surface, entries[i].tool);
      EntryOfFamily(cfg, src, surface, entries[i]);
      ServedIs(filters, surface, r.tool);
    }
    forall t | t in all && (surface.ForMCP? ==> t.onMCP) && (surface.ForA2A? ==> t.onA2A) && forall f :: f in filters ==> f(t)
      ensures exists r :: r in tools && r.kind == Builtin && r.tool == t
    {
      ServedIs(filters, surface, t);
      var i :| 0 <= i < |all| && all[i] == t;
      var r := Assembled(t, Builtin, entries[i].source);
      ServedFrom(filters, surface, entries, r);
      assert r in tools;
    }
    if surface.ForRun? {
      RunWithholdsNone(filters, entries);
    } else {
      NeverBoth(filters, surface, entries);
      forall w ensures w in withheld <==>
        exists t :: t in all && t.name == w.tool &&
          var declares := if surface.ForMCP? then t.onMCP else t.onA2A;
          if w.reason.AgentOnly? then !declares else declares && exists f :: f in filters && !f(t)
      {
        WithheldBecause(filters, surface, entries, w);
      }
    }
  }

  lemma WithheldBecause(filters: seq<Filter>, surface: Surface, entries: seq<Entry>, w: Withheld)
    requires !surface.ForRun?
    ensures w in WithheldRows(filters, surface, entries) <==>
            exists t :: t in EntryTools(entries) && t.name == w.tool &&
              var declares := if surface.ForMCP? then t.onMCP else t.onA2A;
              if w.reason.AgentOnly? then !declares else declares && exists f :: f in filters && !f(t)
  {
    hide Served, WithheldReason, WhyWithheld, WithheldRows;
    var all := EntryTools(entries);
    WithheldFrom(filters, surface, entries, w);
    if i :| 0 <= i < |entries| && w == WhyWithheld(entries[i], surface) && !Served(filters, surface, entries[i].tool) {
      WhyIs(filters, surface, entries[i]);
      assert all[i] in all;
    }
    if t :| t in all && t.name == w.tool &&
            var declares := if surface.ForMCP? then t.onMCP else t.onA2A;
            if w.reason.AgentOnly? then !declares else declares && exists f :: f in filters && !f(t) {
      var i :| 0 <= i < |all| && all[i] == t;
      ServedIs(filters, surface, t);
      WhyIs(filters, surface, entries[i]);
    }
  }

  // ----- the parts of the list

  lemma {:induction false} ViewOfJoin(a: seq<Assembled>, b: seq<Assembled>, kinds: set<Kind>)
    ensures View(a + b, kinds) == View(a, kinds) + View(b, kinds)
  {
    if b == [] {
      assert a + b == a;
    } else {
      ViewOfJoin(a, b[..|b| - 1], kinds);
      assert (a + b)[..|a + b| - 1] == a + b[..|b| - 1];
    }
  }

  lemma {:induction false} ViewOfOneKind(rows: seq<Assembled>, kind: Kind, kinds: set<Kind>)
    requires AllOf(rows, kind)
    ensures View(rows, kinds) == if kind in kinds then ToolsOf(rows) else []
  {
    if rows != [] {
      ViewOfOneKind(rows[..|rows| - 1], kind, kinds);
    }
  }

  lemma {:induction false} SessionsAddMcp(filters: seq<Filter>, p: Progress, sessions: Sessions)
    returns (added: seq<Assembled>)
    ensures AfterSessions(filters, p, sessions).rows == p.rows + added && AllOf(added, MCP)
  {
    hide AnsweredRows, SessionOutcomes, RecordAll, FailedRows, Names;
    added := [];
    if sessions != [] {
      var before, last := sessions[..|sessions| - 1], sessions[|sessions| - 1];
      added := SessionsAddMcp(filters, p, before);
      if last.Some? {
        var outcomes := SessionOutcomes(filters, Names(AfterSessions(filters, p, before).rows), last.value);
        AnsweredAreTheRows(outcomes, MCP);
        added := added + AnsweredRows(outcomes, MCP);
      }
    }
  }

  /** A list in its parts, one kind after another. */
  datatype Parts = Parts(
    commands: seq<Assembled>, builtins: seq<Assembled>, remote: seq<Assembled>, mcp: seq<Assembled>,
    custom: seq<Assembled>)

  function Whole(p: Parts): seq<Assembled> {
    p.commands + p.builtins + p.remote + p.mcp + p.custom
  }

  predicate ByKind(p: Parts) {
    && AllOf(p.commands, Application) && AllOf(p.builtins, Builtin) && AllOf(p.remote, Remote)
    && AllOf(p.mcp, MCP) && AllOf(p.custom, Custom)
  }

  lemma PartsByView(p: Parts)
    requires ByKind(p)
    ensures View(Whole(p), {Application}) == ToolsOf(p.commands)
    ensures View(Whole(p), {Builtin}) == ToolsOf(p.builtins)
    ensures forall r :: r in Whole(p) ==>
              if r.kind == Application then r in p.commands else if r.kind == Builtin then r in p.builtins
              else if r.kind == Remote then r in p.remote else if r.kind == MCP then r in p.mcp
              else r.kind == Custom && r in p.custom
    ensures forall r :: r in p.commands || r in p.builtins || r in p.remote || r in p.mcp || r in p.custom ==> r in Whole(p)
  {
    hide View;
    ViewOfParts(p, {Application});
    ViewOfParts(p, {Builtin});
    InOnePart(p);
  }

  lemma InOnePart(p: Parts)
    requires ByKind(p)
    ensures forall r :: r in Whole(p) ==>
              if r.kind == Application then r in p.commands else if r.kind == Builtin then r in p.builtins
              else if r.kind == Remote then r in p.remote else if r.kind == MCP then r in p.mcp
              else r.kind == Custom && r in p.custom
    ensures forall r :: r in p.commands || r in p.builtins || r in p.remote || r in p.mcp || r in p.custom ==> r in Whole(p)
  {
  }

  lemma ViewOfParts(p: Parts, kinds: set<Kind>)
    requires ByKind(p)
    ensures View(Whole(p), kinds) ==
            (if Application in kinds then ToolsOf(p.commands) else []) + (if Builtin in kinds then ToolsOf(p.builtins) else []) +
            (if Remote in kinds then ToolsOf(p.remote) else []) + (if MCP in kinds then ToolsOf(p.mcp) else []) +
            (if Custom in kinds then ToolsOf(p.custom) else [])
  {
    hide View, AllOf;
    ViewOfJoin(p.commands, p.builtins, kinds);
    ViewOfJoin(p.commands + p.builtins, p.remote, kinds);
    ViewOfJoin(p.commands + p.builtins + p.remote, p.mcp, kinds);
    ViewOfJoin(p.commands + p.builtins + p.remote + p.mcp, p.custom, kinds);
    ViewOfOneKind(p.commands, Application, kinds);
    ViewOfOneKind(p.builtins, Builtin, kinds);
    ViewOfOneKind(p.remote, Remote, kinds);
    ViewOfOneKind(p.mcp, MCP, kinds);
    ViewOfOneKind(p.custom, Custom, kinds);
  }

  /** The parts a list assembled from these inputs falls into. */
  ghost predicate PartsOf(cfg: Config, src: Sources, surface: Surface, p: Parts)
    requires Starts(cfg, src, surface)
  {
    var filters := FiltersOf(cfg, surface);
    && p.commands == AsKind(Kept(filters, cfg.commands.value), Application, FromApplication)
    && p.builtins == ServedRows(filters, surface, Entries(Families(cfg, src)))
    && (!surface.ForRun? ==> p.remote == [] && p.mcp == [] && p.custom == [])
    && (surface.ForRun? ==>
          && p.remote == AnsweredRows(PlanOf(cfg, src, surface).remoteRows, Remote)
          && p.commands + p.builtins + p.remote + p.mcp == PlanOf(cfg, src, surface).rows
          && exists added :: CustomSorted(filters, src.custom, added) && p.custom == AsKind(added, Custom, FromCustom))
  }

  lemma InParts(cfg: Config, src: Sources, surface: Surface, rows: seq<Assembled>) returns (p: Parts)
    requires Starts(cfg, src, surface) && AssemblesTo(cfg, src, surface, rows)
    ensures PartsOf(cfg, src, surface, p) && ByKind(p) && Whole(p) == rows
  {
    hide Kept, ServedRows, Entries, AnsweredRows, AfterSessions, CustomSorted, RemoteOutcomes, RemoteProblems, WithMissing,
      McpRowsOf, FiltersOf, Names, Families, FiltersCompile, BuiltinsFit;
    var filters := FiltersOf(cfg, surface);
    var entries := Entries(Families(cfg, src));
    ServedAreKept(filters, surface, entries);
    p := Parts(AsKind(Kept(filters, cfg.commands.value), Application, FromApplication), ServedRows(filters, surface, entries),
               [], [], []);
    if surface.ForRun? {
      var added :| CustomSorted(filters, src.custom, added) &&
                   rows == PlanOf(cfg, src, surface).rows + AsKind(added, Custom, FromCustom);
      var base := BaseOf(cfg, src, surface);
      var outcomes := RemoteOutcomes(filters, Names(base), cfg.hosts, src.remote);
      AnsweredAreTheRows(outcomes, Remote);
      var mcp := [];
      if cfg.servers != [] {
        mcp := SessionsAddMcp(filters, AfterRemote(filters, base, cfg, src, src.unbound), src.mcp);
      }
      p := p.(remote := AnsweredRows(outcomes, Remote), mcp := mcp, custom := AsKind(added, Custom, FromCustom));
    }
  }

  // ----- the commands

  /** The commands are those the filters keep, in the order the application lists them. */
  predicate CommandsAsConfigured(cfg: Config, filters: seq<Filter>, tools: seq<Assembled>)
    requires cfg.commands.Ok?
  {
    && View(tools, {Application}) == Kept(filters, cfg.commands.value)
    && forall r :: r in tools && r.kind == Application ==> r.source == FromApplication
  }

  // ----- the caller's own

  /** The caller's own tools are all named, and a kept one is taken as it is, for what it is, under its own name. */
  ghost predicate CustomAsGiven(src: Sources, filters: seq<Filter>, tools: seq<Assembled>) {
    && (forall c :: c in src.custom ==> c.Some? && c.value.name != "")
    && (forall c :: c in src.custom && c.Some? && (forall f :: f in filters ==> f(c.value)) ==>
          && c.value.definition == c.value.name && c.value.declares !in {Some(Remote), Some(MCP)}
          && Assembled(c.value, Custom, FromCustom) in tools)
    && (forall r :: r in tools && r.kind == Custom ==>
          r.source == FromCustom && Some(r.tool) in src.custom && forall f :: f in filters ==> f(r.tool))
    && (forall i, j :: 0 <= i < j < |tools| && tools[j].kind == Custom ==>
          if tools[i].kind == Custom then Less(tools[i].tool.name, tools[j].tool.name)
          else tools[i].tool.name != tools[j].tool.name)
  }

  lemma CustomIs(src: Sources, filters: seq<Filter>, p: Parts, added: seq<Tool>)
    requires var plan := p.commands + p.builtins + p.remote + p.mcp;
             CustomOk(filters, plan, RemoteNames(plan), src.custom)
    requires CustomSorted(filters, src.custom, added) && p.custom == AsKind(added, Custom, FromCustom) && ByKind(p)
    ensures CustomAsGiven(src, filters, Whole(p))
  {
    hide KeptBy, Less, View, RemoteNames, Names, CustomDistinct;
    var plan := p.commands + p.builtins + p.remote + p.mcp;
    var rows := Whole(p);
    PartsByView(p);
    forall c | c in src.custom
      ensures c.Some? && c.value.name != ""
      ensures (forall f :: f in filters ==> f(c.value)) ==>
                && c.value.definition == c.value.name && c.value.declares !in {Some(Remote), Some(MCP)}
                && Assembled(c.value, Custom, FromCustom) in rows
    {
      CustomTaken(filters, plan, src.custom, added, c);
    }
    forall r | r in rows && r.kind == Custom
      ensures r.source == FromCustom && Some(r.tool) in src.custom && forall f :: f in filters ==> f(r.tool)
    {
      assert r in p.custom && r.tool in added;
      KeptIsAll(filters, r.tool);
    }
    forall i, j | 0 <= i < j < |rows| && rows[j].kind == Custom
      ensures if rows[i].kind == Custom then Less(rows[i].tool.name, rows[j].tool.name)
              else rows[i].tool.name != rows[j].tool.name
    {
      CustomStand(filters, src.custom, plan, added, p, i, j);
    }
  }

  lemma CustomTaken(filters: seq<Filter>, plan: seq<Assembled>, custom: seq<Option<Tool>>, added: seq<Tool>, c: Option<Tool>)
    requires CustomOk(filters, plan, RemoteNames(plan), custom) && CustomSorted(filters, custom, added) && c in custom
    ensures c.Some? && c.value.name != ""
    ensures (forall f :: f in filters ==> f(c.value)) ==>
              && c.value.definition == c.value.name && c.value.declares !in {Some(Remote), Some(MCP)}
              && Assembled(c.value, Custom, FromCustom) in AsKind(added, Custom, FromCustom)
  {
    hide KeptBy, Less, RemoteNames, Names, CustomDistinct, Ascending;
    var i :| 0 <= i < |custom| && custom[i] == c;
    assert CustomTakes(filters, plan, RemoteNames(plan), custom[i]);
    KeptIsAll(filters, c.value);
    if KeptBy(filters, c.value) {
      var k :| 0 <= k < |added| && added[k] == c.value;
      assert AsKind(added, Custom, FromCustom)[k] == Assembled(c.value, Custom, FromCustom);
    }
  }

  /** A custom list is taken exactly when every tool of it is named and every kept one fits, under a name of its own. */
  lemma CustomIsTakenWhen(filters: seq<Filter>, rows: seq<Assembled>, custom: seq<Option<Tool>>)
    ensures CustomOk(filters, rows, RemoteNames(rows), custom) <==>
            && (forall i :: 0 <= i < |custom| ==> custom[i].Some? && custom[i].value.name != "")
            && (forall i :: 0 <= i < |custom| && custom[i].Some? && (forall f :: f in filters ==> f(custom[i].value)) ==>
                  && custom[i].value.definition == custom[i].value.name
                  && custom[i].value.declares != Some(Remote) && custom[i].value.declares != Some(MCP)
                  && forall r :: r in rows ==> r.tool.name != custom[i].value.name)
            && forall i, j :: (0 <= i < j < |custom| && custom[i].Some? && custom[j].Some? &&
                 (forall f :: f in filters ==> f(custom[i].value) && f(custom[j].value))) ==>
                   custom[i].value.name != custom[j].value.name
  {
    hide KeptBy, RemoteNames, Names;
    forall i | 0 <= i < |custom| && custom[i].Some?
      ensures KeptBy(filters, custom[i].value) <==> forall f :: f in filters ==> f(custom[i].value)
      ensures CustomFits(rows, RemoteNames(rows), custom[i].value) <==>
              && custom[i].value.definition == custom[i].value.name
              && custom[i].value.declares != Some(Remote) && custom[i].value.declares != Some(MCP)
              && forall r :: r in rows ==> r.tool.name != custom[i].value.name
    {
      KeptIsAll(filters, custom[i].value);
      NameIsHeld(rows, custom[i].value.name);
    }
  }

  lemma NameIsHeld(rows: seq<Assembled>, name: string)
    ensures name in Names(rows) <==> exists r :: r in rows && r.tool.name == name
    ensures name in RemoteNames(rows) ==> name in Names(rows)
  {
  }

  lemma CustomStand(filters: seq<Filter>, custom: seq<Option<Tool>>, plan: seq<Assembled>, added: seq<Tool>, p: Parts,
                    i: nat, j: nat)
    requires CustomOk(filters, plan, RemoteNames(plan), custom) && CustomSorted(filters, custom, added)
    requires ByKind(p) && p.custom == AsKind(added, Custom, FromCustom)
    requires plan == p.commands + p.builtins + p.remote + p.mcp
    requires i < j < |plan + p.custom| && (plan + p.custom)[j].kind == Custom
    ensures var rows := plan + p.custom;
            if rows[i].kind == Custom then Less(rows[i].tool.name, rows[j].tool.name)
            else rows[i].tool.name != rows[j].tool.name
  {
    hide KeptBy, Less, RemoteNames, Names, CustomDistinct;
    var rows := plan + p.custom;
    assert forall k :: 0 <= k < |plan| ==> plan[k].kind != Custom;
    var t := added[j - |plan|];
    if i < |plan| {
      assert t in added;
      var x :| 0 <= x < |custom| && custom[x] == Some(t);
      assert CustomTakes(filters, plan, RemoteNames(plan), custom[x]);
      assert plan[i].tool.name in Names(plan) by { NameIsThere(plan, i); }
    } else {
      assert Less(NameList(added)[i - |plan|], NameList(added)[j - |plan|]);
    }
  }

  lemma NameIsThere(rows: seq<Assembled>, i: nat)
    requires i < |rows|
    ensures rows[i].tool.name in Names(rows)
  {
    assert rows[i] in rows;
  }

  // ----- the list as a whole

  /** What is held on every surface. */
  ghost predicate AsConfigured(cfg: Config, src: Sources, surface: Surface, filters: seq<Filter>,
                               tools: seq<Assembled>, withheld: seq<Withheld>)
  {
    && cfg.commands.Ok? && cfg.harness.Ok?
    && FiltersAsConfigured(cfg, surface, filters)
    && CommandsAsConfigured(cfg, filters, tools)
    && BuiltinsAsConfigured(cfg, src, surface, filters, tools, withheld)
    && (surface.ForRun? ==> CustomAsGiven(src, filters, tools))
    && (!surface.ForRun? ==> forall r :: r in tools ==> r.kind == Application || r.kind == Builtin)
  }

  /** An assembly that succeeds holds what the configuration says. */
  lemma SucceedsAsConfigured(cfg: Config, src: Sources, surface: Surface, policy: Policy, tools: seq<Assembled>)
    requires Succeeds(cfg, src, surface, policy) && AssemblesTo(cfg, src, surface, tools)
    ensures AsConfigured(cfg, src, surface, FiltersOf(cfg, surface), tools,
                         WithheldRows(FiltersOf(cfg, surface), surface, Entries(Families(cfg, src))))
  {
    hide BuiltinsAsConfigured, CustomAsGiven, FiltersAsConfigured, FiltersOf, FiltersCompile, Families, Entries, BuiltinsFit,
      Kept, NamesIn, RunImports, RunPlan, CustomOk, CustomSorted, ServedRows, View, WithheldRows, RemoteNames;
    var p := InParts(cfg, src, surface, tools);
    var filters := FiltersOf(cfg, surface);
    PartsByView(p);
    FiltersAre(cfg, surface);
    BuiltinsAre(cfg, src, surface, filters, tools, NamesIn(Kept(filters, cfg.commands.value)));
    if surface.ForRun? {
      var added :| CustomSorted(filters, src.custom, added) && p.custom == AsKind(added, Custom, FromCustom);
      CustomIs(src, filters, p, added);
    }
  }

  // ----- when it starts

  /** The built-ins a surface can serve, as a filter. */
  function Reaches(surface: Surface): Filter {
    (t: Tool) => (surface.ForMCP? ==> t.onMCP) && (surface.ForA2A? ==> t.onA2A)
  }

  lemma {:induction false} ServedToolsAreKept(filters: seq<Filter>, surface: Surface, entries: seq<Entry>)
    ensures ToolsOf(ServedRows(filters, surface, entries)) == Kept(filters + [Reaches(surface)], EntryTools(entries))
  {
    hide Served, KeptBy;
    if entries != [] {
      var front, e := entries[..|entries| - 1], entries[|entries| - 1];
      ServedToolsAreKept(filters, surface, front);
      ServedIs(filters, surface, e.tool);
      ReachesIs(filters, surface, e.tool);
      assert EntryTools(entries)[..|entries| - 1] == EntryTools(front);
    }
  }

  /** A built-in that is served once its filters are known. */
  ghost predicate IsServed(filters: seq<Filter>, surface: Surface, t: Tool) {
    (surface.ForMCP? ==> t.onMCP) && (surface.ForA2A? ==> t.onA2A) && forall f :: f in filters ==> f(t)
  }

  /** Each built-in that is served has its store, and a name no other and no kept command has. */
  ghost predicate BuiltinsCanJoin(cfg: Config, src: Sources, surface: Surface, filters: seq<Filter>)
    requires cfg.harness.Ok? && cfg.commands.Ok?
  {
    var all := AllBuiltins(cfg);
    && (!surface.ForRun? && !src.memory ==> forall t :: t in cfg.memory ==> !IsServed(filters, surface, t))
    && (!surface.ForRun? && !src.knowledge ==> forall t :: t in cfg.knowledge ==> !IsServed(filters, surface, t))
    && (forall i, j :: 0 <= i < j < |all| && IsServed(filters, surface, all[i]) && IsServed(filters, surface, all[j]) ==>
                         all[i].name != all[j].name)
    && forall t, c :: (t in all && IsServed(filters, surface, t) && c in cfg.commands.value && forall f :: f in filters ==> f(c)) ==>
                        t.name != c.name
  }

  lemma DistinctByPlace(filters: seq<Filter>, tools: seq<Tool>)
    ensures DistinctNames(Kept(filters, tools)) <==>
            forall i, j :: 0 <= i < j < |tools| && KeptBy(filters, tools[i]) && KeptBy(filters, tools[j]) ==>
                             tools[i].name != tools[j].name
  {
    hide Kept, KeptBy;
    var kept := Kept(filters, tools);
    var at := KeptInOrder(filters, tools);
    forall i: nat | i < |tools| ensures KeptBy(filters, tools[i]) <==> i in at {
      KeptIsAll(filters, tools[i]);
    }
    if DistinctNames(kept) {
      forall i, j | 0 <= i < j < |tools| && KeptBy(filters, tools[i]) && KeptBy(filters, tools[j])
        ensures tools[i].name != tools[j].name
      {
        var x :| 0 <= x < |at| && at[x] == i;
        var y :| 0 <= y < |at| && at[y] == j;
        assert kept[x] == tools[i] && kept[y] == tools[j];
        assert x < y || y < x;
      }
    }
    forall k | 0 <= k < |at| ensures KeptBy(filters, tools[at[k]]) {
      assert at[k] in at;
    }
  }

  /** What a family needs of its store. */
  lemma FamilyIsReady(filters: seq<Filter>, surface: Surface, family: Family)
    ensures (forall e :: e in FamilyEntries(family) && Served(filters, surface, e.tool) ==> surface.ForRun? || e.ready) <==>
            surface.ForRun? || family.ready || forall t :: t in family.tools ==> !IsServed(filters, surface, t)
  {
    hide Served, IsServed;
    var entries := FamilyEntries(family);
    forall t ensures Served(filters, surface, t) <==> IsServed(filters, surface, t) {
      ServedIsServed(filters, surface, t);
    }
    forall t | t in family.tools ensures exists e :: e in entries && e.tool == t && e.ready == family.ready {
      var i :| 0 <= i < |family.tools| && family.tools[i] == t;
      assert entries[i] in entries;
    }
  }

  lemma ServedIsServed(filters: seq<Filter>, surface: Surface, t: Tool)
    ensures Served(filters, surface, t) <==> IsServed(filters, surface, t)
  {
    ServedIs(filters, surface, t);
  }

  lemma StoresAreThere(cfg: Config, src: Sources, surface: Surface, filters: seq<Filter>)
    requires cfg.harness.Ok?
    ensures var entries := Entries(Families(cfg, src));
            (forall i :: 0 <= i < |entries| && Served(filters, surface, entries[i].tool) ==> surface.ForRun? || entries[i].ready)
            <==>
            && (!surface.ForRun? && !src.memory ==> forall t :: t in cfg.memory ==> !IsServed(filters, surface, t))
            && (!surface.ForRun? && !src.knowledge ==> forall t :: t in cfg.knowledge ==> !IsServed(filters, surface, t))
  {
    hide Entries, Served, IsServed, FamilyEntries;
    var entries, f := Entries(Families(cfg, src)), Families(cfg, src);
    EntriesOfFour(cfg, src);
    FamilyIsReady(filters, surface, f[0]);
    FamilyIsReady(filters, surface, f[1]);
    FamilyIsReady(filters, surface, f[2]);
    FamilyIsReady(filters, surface, f[3]);
    assert forall e :: e in entries <==>
      e in FamilyEntries(f[0]) || e in FamilyEntries(f[1]) || e in FamilyEntries(f[2]) || e in FamilyEntries(f[3]);
    assert (forall i :: 0 <= i < |entries| && Served(filters, surface, entries[i].tool) ==> surface.ForRun? || entries[i].ready)
      <==> (forall e :: e in entries && Served(filters, surface, e.tool) ==> surface.ForRun? || e.ready);
  }

  /** Assembling gets past the commands and the built-ins exactly when they compile, answer and can join. */
  lemma StartsWhen(cfg: Config, src: Sources, surface: Surface)
    ensures Starts(cfg, src, surface) <==>
            cfg.commands.Ok? && cfg.harness.Ok? &&
            exists filters :: FiltersAsConfigured(cfg, surface, filters) && BuiltinsCanJoin(cfg, src, surface, filters)
  {
    hide Entries, Families, BuiltinsCanJoin, BuiltinsFit, Kept, NamesIn;
    if FiltersCompile(cfg, surface) && cfg.commands.Ok? && cfg.harness.Ok? {
      FiltersAre(cfg, surface);
      CanJoinIs(cfg, src, surface, FiltersOf(cfg, surface));
      forall filters | FiltersAsConfigured(cfg, surface, filters) ensures filters == FiltersOf(cfg, surface) {
      }
    }
    if filters :| FiltersAsConfigured(cfg, surface, filters) {
      CompiledAre(cfg, surface, filters);
    }
  }

  lemma CompiledAre(cfg: Config, surface: Surface, filters: seq<Filter>)
    requires FiltersAsConfigured(cfg, surface, filters)
    ensures FiltersCompile(cfg, surface)
  {
  }

  lemma CanJoinIs(cfg: Config, src: Sources, surface: Surface, filters: seq<Filter>)
    requires cfg.harness.Ok? && cfg.commands.Ok?
    ensures BuiltinsFit(filters, surface, NamesIn(Kept(filters, cfg.commands.value)), Entries(Families(cfg, src))) <==>
            BuiltinsCanJoin(cfg, src, surface, filters)
  {
    hide Entries, Families, Kept, Served, IsServed, ServedRows, Reaches, NamesIn, Names, DistinctNames;
    var entries, all := Entries(Families(cfg, src)), AllBuiltins(cfg);
    EntriesOfFour(cfg, src);
    StoresAreThere(cfg, src, surface, filters);
    ServedAreDistinct(filters, surface, entries);
    assert Names(ServedRows(filters, surface, entries)) !! NamesIn(Kept(filters, cfg.commands.value)) <==>
      forall t, c :: (t in all && IsServed(filters, surface, t) && c in cfg.commands.value && forall f :: f in filters ==> f(c)) ==>
                       t.name != c.name
    by {
      ServedAreFree(filters, surface, entries, cfg.commands.value);
    }
  }

  lemma ServedAreDistinct(filters: seq<Filter>, surface: Surface, entries: seq<Entry>)
    ensures var all := EntryTools(entries);
            DistinctNames(ToolsOf(ServedRows(filters, surface, entries))) <==>
            forall i, j :: 0 <= i < j < |all| && IsServed(filters, surface, all[i]) && IsServed(filters, surface, all[j]) ==>
                             all[i].name != all[j].name
  {
    hide Kept, KeptBy, IsServed, ServedRows, Reaches, DistinctNames;
    var all := EntryTools(entries);
    ServedToolsAreKept(filters, surface, entries);
    DistinctByPlace(filters + [Reaches(surface)], all);
    forall t ensures KeptBy(filters + [Reaches(surface)], t) <==> IsServed(filters, surface, t) {
      ReachesIs(filters, surface, t);
    }
  }

  lemma ServedAreFree(filters: seq<Filter>, surface: Surface, entries: seq<Entry>, commands: seq<Tool>)
    ensures Names(ServedRows(filters, surface, entries)) !! NamesIn(Kept(filters, commands)) <==>
            forall t, c :: (t in EntryTools(entries) && IsServed(filters, surface, t) && c in commands
                            && forall f :: f in filters ==> f(c)) ==> t.name != c.name
  {
    hide Kept, KeptBy, IsServed, ServedRows, Reaches, Names, NamesIn;
    var rows, more := ServedRows(filters, surface, entries), filters + [Reaches(surface)];
    ServedToolsAreKept(filters, surface, entries);
    KeptIsAPart(more, EntryTools(entries));
    KeptIsAPart(filters, commands);
    forall t
      ensures t in ToolsOf(rows) <==> t in EntryTools(entries) && IsServed(filters, surface, t)
      ensures t in Kept(filters, commands) <==> t in commands && forall f :: f in filters ==> f(t)
    {
      ReachesIs(filters, surface, t);
      KeptIsAll(filters, t);
    }
    forall name
      ensures name in Names(rows) <==> exists t :: t in ToolsOf(rows) && t.name == name
      ensures name in NamesIn(Kept(filters, commands)) <==> exists c :: c in Kept(filters, commands) && c.name == name
    {
      NamedInRows(rows, name);
      NamedInTools(Kept(filters, commands), name);
    }
    if t, c :| t in EntryTools(entries) && IsServed(filters, surface, t) && c in commands
               && (forall f :: f in filters ==> f(c)) && t.name == c.name {
      assert t.name in Names(rows) && t.name in NamesIn(Kept(filters, commands));
    }
  }

  lemma NamedInTools(tools: seq<Tool>, name: string)
    ensures name in NamesIn(tools) <==> exists t :: t in tools && t.name == name
  {
  }

  lemma NamedInRows(rows: seq<Assembled>, name: string)
    ensures name in Names(rows) <==> exists t :: t in ToolsOf(rows) && t.name == name
  {
    if name in Names(rows) {
      var i :| 0 <= i < |rows| && rows[i].tool.name == name;
      assert ToolsOf(rows)[i] in ToolsOf(rows);
    }
    if t :| t in ToolsOf(rows) && t.name == name {
      var i :| 0 <= i < |rows| && ToolsOf(rows)[i] == t;
      assert rows[i] in rows;
    }
  }

  lemma ReachesIs(filters: seq<Filter>, surface: Surface, t: Tool)
    ensures KeptBy(filters + [Reaches(surface)], t) <==> IsServed(filters, surface, t)
  {
    KeptByOneMore(filters, Reaches(surface), t);
    KeptIsAll(filters, t);
  }
}

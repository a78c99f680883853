/** How the tools of configured MCP servers are named, server by server. */
module McpClient {
  import opened Wrappers
  import opened Toolkit

  datatype Server = Server(name: string, alias: string)

  function Alias(s: Server): string {
    if s.alias != "" then s.alias else s.name
  }

  datatype Failure = Unlisted(server: string, reason: string) | Collided

  datatype ServerImport = ServerImport(server: Server, error: Option<string>, tools: seq<Tool>)

  /** What a connected server answered when its tools were listed. */
  datatype Listing = Listing(server: Server, found: Result<seq<Descriptor>, string>)

  /** The tools built from some descriptors, where the used names are held by others. */
  function Named(alias: string, ds: seq<Descriptor>, used: set<string>): seq<Tool> {
    if ds == [] then []
    else
      var sofar := Named(alias, ds[..|ds| - 1], used);
      var d := ds[|ds| - 1];
      var name := Prefixed(alias, d.name);
      if Usable(name) && name !in used && name !in NamesIn(sofar) && d.builds
      then sofar + [Imported(name, MCP)] else sofar
  }

  /** Whether a usable name was held when its turn came. */
  function Collides(alias: string, ds: seq<Descriptor>, used: set<string>): bool {
    if ds == [] then false
    else
      var name := Prefixed(alias, ds[|ds| - 1].name);
      || Collides(alias, ds[..|ds| - 1], used)
      || (Usable(name) && (name in used || name in NamesIn(Named(alias, ds[..|ds| - 1], used))))
  }

  /** Every name is prefixed with the alias, none was held, and none is given twice. */
  lemma {:induction false} NamedAreNew(alias: string, ds: seq<Descriptor>, used: set<string>)
    ensures var tools := Named(alias, ds, used);
            && DistinctNames(tools) && NamesIn(tools) !! used
            && forall t :: t in tools ==> Usable(t.name) && exists i :: 0 <= i < |ds| && t.name == Prefixed(alias, ds[i].name)
  {
    hide Usable, Prefixed;
    if ds != [] {
      var sofar := ds[..|ds| - 1];
      NamedAreNew(alias, sofar, used);
      forall t | t in Named(alias, ds, used)
        ensures Usable(t.name) && exists i :: 0 <= i < |ds| && t.name == Prefixed(alias, ds[i].name)
      {
        if t in Named(alias, sofar, used) {
          var i :| 0 <= i < |sofar| && t.name == Prefixed(alias, sofar[i].name);
          assert t.name == Prefixed(alias, ds[i].name);
        }
      }
    }
  }

  method BuildServerTools(alias: string, ds: seq<Descriptor>, claimed: set<string>, byName: map<string, Tool>)
    returns (tools: seq<Tool>, more: map<string, Tool>, collided: bool)
    ensures tools == Named(alias, ds, claimed + byName.Keys)
    ensures more.Keys == byName.Keys + NamesIn(tools)
    ensures collided <==> Collides(alias, ds, claimed + byName.Keys)
  {
    hide Usable, Prefixed;
    tools, more, collided := [], byName, false;
    ghost var used := claimed + byName.Keys;
    for j := 0 to |ds|
      invariant tools == Named(alias, ds[..j], used)
      invariant more.Keys == byName.Keys + NamesIn(tools)
      invariant collided <==> Collides(alias, ds[..j], used)
    {
      assert ds[..j + 1][..j] == ds[..j];
      var name := Prefixed(alias, ds[j].name);
      if !Usable(name) {
        continue;
      }
      if name in claimed || name in more {
        collided := true;
        continue;
      }
      if ds[j].builds {
        more := more[name := Imported(name, MCP)];
        tools := tools + [Imported(name, MCP)];
      }
    }
    assert ds[..|ds|] == ds;
  }

  function AllTools(rows: seq<ServerImport>): seq<Tool> {
    if rows == [] then [] else AllTools(rows[..|rows| - 1]) + rows[|rows| - 1].tools
  }

  lemma DistinctJoin(a: seq<Tool>, b: seq<Tool>)
    requires DistinctNames(a) && DistinctNames(b) && NamesIn(a) !! NamesIn(b)
    ensures DistinctNames(a + b) && NamesIn(a + b) == NamesIn(a) + NamesIn(b)
  {
    forall i, j | 0 <= i < j < |a + b| ensures (a + b)[i].name != (a + b)[j].name {
      if i < |a| <= j {
        assert a[i].name in NamesIn(a) && b[j - |a|].name in NamesIn(b);
      }
    }
  }

  /** One server's outcome, where the held names are those claimed before it. */
  function RowOf(listing: Listing, held: set<string>): ServerImport {
    match listing.found
    case Err(reason) => ServerImport(listing.server, Some(reason), [])
    case Ok(ds) => ServerImport(listing.server, None, Named(Alias(listing.server), ds, held))
  }

  /** The outcomes of an import, each server held to the names of the ones before it. */
  function Rows(listings: seq<Listing>, claimed: set<string>): seq<ServerImport> {
    if listings == [] then []
    else
      var before := Rows(listings[..|listings| - 1], claimed);
      before + [RowOf(listings[|listings| - 1], claimed + NamesIn(AllTools(before)))]
  }

  /** Whether some server offered a usable name that was held when its turn came. */
  function AnyCollides(listings: seq<Listing>, claimed: set<string>): bool {
    if listings == [] then false
    else
      var before, last := listings[..|listings| - 1], listings[|listings| - 1];
      || AnyCollides(before, claimed)
      || (last.found.Ok? &&
          Collides(Alias(last.server), last.found.value, claimed + NamesIn(AllTools(Rows(before, claimed)))))
  }

  lemma AllToolsOfMore(rows: seq<ServerImport>, row: ServerImport)
    ensures AllTools(rows + [row]) == AllTools(rows) + row.tools
  {
    assert (rows + [row])[..|rows|] == rows;
  }

  /** Across the servers of a session names stay distinct, and none was claimed before. */
  lemma {:induction false} RowsAreNew(listings: seq<Listing>, claimed: set<string>)
    ensures var rows := Rows(listings, claimed);
            && DistinctNames(AllTools(rows)) && NamesIn(AllTools(rows)) !! claimed
            && |rows| == |listings|
            && forall i :: 0 <= i < |rows| ==>
                 && rows[i].server == listings[i].server
                 && rows[i].error == (if listings[i].found.Err? then Some(listings[i].found.error) else None)
                 && (rows[i].error.Some? ==> rows[i].tools == [])
  {
    hide Named, DistinctNames, AllTools;
    if listings == [] {
      NothingImported();
    } else {
      var n := |listings| - 1;
      RowsAreNew(listings[..n], claimed);
      var before := Rows(listings[..n], claimed);
      var held := claimed + NamesIn(AllTools(before));
      var row := RowOf(listings[n], held);
      AllToolsOfMore(before, row);
      if listings[n].found.Ok? {
        NamedAreNew(Alias(row.server), listings[n].found.value, held);
        DistinctJoin(AllTools(before), row.tools);
      } else {
        assert AllTools(before) + [] == AllTools(before);
      }
    }
  }

  lemma NothingImported()
    ensures AllTools([]) == [] && DistinctNames([])
  {
  }

  /** Lists every server in order; one that fails is its own outcome, a clash is the import's. */
  method ImportServers(listings: seq<Listing>, claimed: set<string>) returns (rows: seq<ServerImport>, collided: bool)
    ensures rows == Rows(listings, claimed)
    ensures collided <==> AnyCollides(listings, claimed)
  {
    hide Named, Collides, AllTools;
    rows, collided := [], false;
    var byName: map<string, Tool> := map[];
    NothingImported();
    for i := 0 to |listings|
      invariant rows == Rows(listings[..i], claimed)
      invariant collided <==> AnyCollides(listings[..i], claimed)
      invariant byName.Keys == NamesIn(AllTools(rows))
    {
      assert listings[..i + 1][..i] == listings[..i];
      var row, clash := ServerImport(listings[i].server, None, []), false;
      match listings[i].found {
        case Err(reason) =>
          row := row.(error := Some(reason));
          assert AllTools(rows) + [] == AllTools(rows);
        case Ok(ds) =>
          var tools;
          tools, byName, clash := BuildServerTools(Alias(row.server), ds, claimed, byName);
          row := row.(tools := tools);
      }
      AllToolsOfMore(rows, row);
      rows := rows + [row];
      collided := collided || clash;
    }
    assert listings[..|listings|] == listings;
  }

  /** The import fails on the first server that could not be listed, else on a clash. */
  method Import(listings: seq<Listing>, claimed: set<string>)
    returns (rows: seq<ServerImport>, failure: Option<Failure>)
    ensures rows == Rows(listings, claimed)
    ensures failure.None? <==> Imports(listings, claimed)
    ensures failure == Some(Collided) ==> AnyCollides(listings, claimed)
    ensures failure.Some? && failure.value.Unlisted? ==>
            exists i :: 0 <= i < |listings| && listings[i].found.Err? &&
                        (forall k :: 0 <= k < i ==> listings[k].found.Ok?) &&
                        failure.value == Unlisted(listings[i].server.name, listings[i].found.error)
  {
    hide AnyCollides, Rows;
    var collided;
    rows, collided := ImportServers(listings, claimed);
    RowsAreNew(listings, claimed);
    for i := 0 to |rows|
      invariant forall k :: 0 <= k < i ==> listings[k].found.Ok?
    {
      if rows[i].error.Some? {
        failure := Some(Unlisted(rows[i].server.name, rows[i].error.value));
        return;
      }
    }
    failure := if collided then Some(Collided) else None;
  }

  /** Every server could be listed and no usable name was held. */
  predicate Imports(listings: seq<Listing>, claimed: set<string>) {
    (forall i :: 0 <= i < |listings| ==> listings[i].found.Ok?) && !AnyCollides(listings, claimed)
  }
}

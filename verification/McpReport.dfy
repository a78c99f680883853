/** What the MCP import comes to, told from what each server listed. */
module McpReports {
  import opened Wrappers
  import opened Toolkit
  import opened McpClient

  /** The server could be listed, and this is one of the tools it listed. */
  predicate Listed(listings: seq<Listing>, k: nat, j: nat) {
    k < |listings| && listings[k].found.Ok? && j < |listings[k].found.value|
  }

  /** The name a listed tool would go by. */
  function ListedAs(listings: seq<Listing>, k: nat, j: nat): string
    requires Listed(listings, k, j)
  {
    var server := listings[k].server;
    (if server.alias != "" then server.alias else server.name) + "_" + listings[k].found.value[j].name
  }

  /** A name that was held before a server's turn: by others, or by a tool of a server before it. */
  predicate HeldBefore(listings: seq<Listing>, claimed: set<string>, k: nat, name: string) {
    name in claimed || exists r :: 0 <= r < k && r < |Rows(listings, claimed)| && name in NamesIn(Rows(listings, claimed)[r].tools)
  }

  /** A tool of the same server, listed before this one and built, is of its name. */
  predicate BuiltBefore(listings: seq<Listing>, k: nat, j: nat)
    requires Listed(listings, k, j)
  {
    var ds := listings[k].found.value;
    exists i :: 0 <= i < j && ds[i].name == ds[j].name && ds[i].builds
  }

  // ----- one server

  lemma PrefixesDiffer(alias: string, a: string, b: string)
    ensures Prefixed(alias, a) == Prefixed(alias, b) <==> a == b
  {
    assert Prefixed(alias, a)[|alias| + 1..] == a;
    assert Prefixed(alias, b)[|alias| + 1..] == b;
  }

  lemma {:induction false} NamedAre(alias: string, ds: seq<Descriptor>, used: set<string>, t: Tool)
    ensures t in Named(alias, ds, used) <==>
            exists j :: 0 <= j < |ds| && ds[j].builds && Usable(Prefixed(alias, ds[j].name)) &&
                        Prefixed(alias, ds[j].name) !in used && t == Imported(Prefixed(alias, ds[j].name), MCP)
  {
    hide Usable, Prefixed;
    if ds != [] {
      var sofar, d := ds[..|ds| - 1], ds[|ds| - 1];
      NamedAre(alias, sofar, used, t);
      var name := Prefixed(alias, d.name);
      if name in NamesIn(Named(alias, sofar, used)) && t == Imported(name, MCP) {
        NamedByName(alias, sofar, used, name);
      }
    }
  }

  lemma {:induction false} NamedByName(alias: string, ds: seq<Descriptor>, used: set<string>, name: string)
    ensures name in NamesIn(Named(alias, ds, used)) <==> Imported(name, MCP) in Named(alias, ds, used)
  {
    hide Usable, Prefixed;
    if ds != [] {
      NamedByName(alias, ds[..|ds| - 1], used, name);
    }
  }

  lemma {:induction false} CollidesIs(alias: string, ds: seq<Descriptor>, used: set<string>)
    ensures Collides(alias, ds, used) <==>
            exists j :: 0 <= j < |ds| && Usable(Prefixed(alias, ds[j].name)) &&
                        (Prefixed(alias, ds[j].name) in used ||
                         exists i :: 0 <= i < j && ds[i].name == ds[j].name && ds[i].builds)
  {
    hide Usable, Prefixed;
    if ds != [] {
      var n := |ds| - 1;
      var sofar, d := ds[..n], ds[n];
      CollidesIs(alias, sofar, used);
      var name := Prefixed(alias, d.name);
      NamedByName(alias, sofar, used, name);
      NamedAre(alias, sofar, used, Imported(name, MCP));
      forall i | 0 <= i < n ensures Prefixed(alias, ds[i].name) == name <==> ds[i].name == d.name {
        PrefixesDiffer(alias, ds[i].name, d.name);
      }
      assert Usable(name) && name !in used ==>
          (name in NamesIn(Named(alias, sofar, used)) <==> exists i :: 0 <= i < n && ds[i].name == d.name && ds[i].builds);
    }
  }

  // ----- one server after another

  lemma {:induction false} RowsInPart(listings: seq<Listing>, claimed: set<string>, k: nat)
    requires k <= |listings|
    ensures |Rows(listings, claimed)| == |listings| && Rows(listings[..k], claimed) == Rows(listings, claimed)[..k]
    decreases |listings|
  {
    hide Named, AllTools;
    if k < |listings| {
      RowsInPart(listings[..|listings| - 1], claimed, k);
      assert listings[..|listings| - 1][..k] == listings[..k];
    } else {
      assert listings[..k] == listings;
      if listings != [] {
        RowsInPart(listings[..k - 1], claimed, k - 1);
      }
    }
  }

  lemma {:induction false} NamesInRows(rows: seq<ServerImport>, name: string)
    ensures name in NamesIn(AllTools(rows)) <==> exists r :: 0 <= r < |rows| && name in NamesIn(rows[r].tools)
  {
    if rows != [] {
      var front, last := rows[..|rows| - 1], rows[|rows| - 1];
      NamesInRows(front, name);
      assert AllTools(rows) == AllTools(front) + last.tools;
      assert NamesIn(AllTools(rows)) == NamesIn(AllTools(front)) + NamesIn(last.tools);
      if r :| 0 <= r < |rows| && name in NamesIn(rows[r].tools) && r < |front| {
        assert front[r] == rows[r];
      }
    }
  }

  lemma HeldIs(listings: seq<Listing>, claimed: set<string>, k: nat, name: string)
    requires k <= |listings|
    ensures name in claimed + NamesIn(AllTools(Rows(listings[..k], claimed))) <==> HeldBefore(listings, claimed, k, name)
  {
    hide Rows, AllTools;
    RowsInPart(listings, claimed, k);
    var rows := Rows(listings, claimed);
    NamesInRows(rows[..k], name);
    assert forall r :: 0 <= r < k ==> rows[..k][r] == rows[r];
  }

  lemma RowIs(listings: seq<Listing>, claimed: set<string>, k: nat)
    requires k < |listings|
    ensures |Rows(listings, claimed)| == |listings|
    ensures Rows(listings, claimed)[k] == RowOf(listings[k], claimed + NamesIn(AllTools(Rows(listings[..k], claimed))))
  {
    hide AllTools, RowOf;
    RowsInPart(listings, claimed, k + 1);
    assert listings[..k + 1][..k] == listings[..k];
    assert Rows(listings[..k + 1], claimed)[k] == Rows(listings, claimed)[k];
  }

  /**
    A server's row holds just the tools it listed that can be built, each under the server's
    prefix, when that makes a usable name nobody held before.
   */
  lemma RowsHoldWhatIsListed(listings: seq<Listing>, claimed: set<string>, k: nat, t: Tool)
    requires k < |listings|
    ensures |Rows(listings, claimed)| == |listings|
    ensures t in Rows(listings, claimed)[k].tools <==>
            exists j: nat :: Listed(listings, k, j) && listings[k].found.value[j].builds &&
                             t.name == ListedAs(listings, k, j) && WellNamed(t.name) &&
                             !HeldBefore(listings, claimed, k, t.name) &&
                             t == Tool(t.name, {}, t.name, Some(MCP), false, false)
  {
    hide Rows, AllTools, Named, Usable, WellNamed, HeldBefore;
    RowIs(listings, claimed, k);
    if listings[k].found.Ok? {
      var alias, ds := Alias(listings[k].server), listings[k].found.value;
      var held := claimed + NamesIn(AllTools(Rows(listings[..k], claimed)));
      NamedAre(alias, ds, held, t);
      HeldIs(listings, claimed, k, t.name);
      UsableIsWellNamed(t.name);
      forall j: nat | j < |ds| ensures ListedAs(listings, k, j) == Prefixed(alias, ds[j].name) {
      }
    }
  }

  /** And a collision is reported exactly when a tool with a usable name finds it held. */
  lemma {:induction false} CollisionIsReported(listings: seq<Listing>, claimed: set<string>)
    ensures AnyCollides(listings, claimed) <==>
            exists k: nat, j: nat :: Listed(listings, k, j) && WellNamed(ListedAs(listings, k, j)) &&
              (HeldBefore(listings, claimed, k, ListedAs(listings, k, j)) || BuiltBefore(listings, k, j))
  {
    hide Rows, Collides, HeldBefore, BuiltBefore, WellNamed, AllTools, ListedAs;
    if listings != [] {
      var n := |listings| - 1;
      var front := listings[..n];
      CollisionIsReported(front, claimed);
      LastCollides(listings, claimed);
      forall k: nat, j: nat | k < n && Listed(listings, k, j)
        ensures Listed(front, k, j) && ListedAs(front, k, j) == ListedAs(listings, k, j)
        ensures HeldBefore(front, claimed, k, ListedAs(front, k, j)) == HeldBefore(listings, claimed, k, ListedAs(front, k, j))
        ensures BuiltBefore(front, k, j) == BuiltBefore(listings, k, j)
      {
        SameBefore(listings, claimed, k, j);
      }
    }
  }

  lemma SameBefore(listings: seq<Listing>, claimed: set<string>, k: nat, j: nat)
    requires listings != [] && k < |listings| - 1 && Listed(listings, k, j)
    ensures var front := listings[..|listings| - 1];
            && Listed(front, k, j) && ListedAs(front, k, j) == ListedAs(listings, k, j)
            && HeldBefore(front, claimed, k, ListedAs(front, k, j)) == HeldBefore(listings, claimed, k, ListedAs(front, k, j))
            && BuiltBefore(front, k, j) == BuiltBefore(listings, k, j)
  {
    hide Rows, AllTools;
    var front := listings[..|listings| - 1];
    RowsInPart(listings, claimed, |front|);
    assert forall r :: 0 <= r < |front| ==> Rows(front, claimed)[r] == Rows(listings, claimed)[r];
  }

  lemma LastCollides(listings: seq<Listing>, claimed: set<string>)
    requires listings != []
    ensures var n := |listings| - 1;
            AnyCollides(listings, claimed) <==>
            AnyCollides(listings[..n], claimed) ||
            exists j: nat :: Listed(listings, n, j) && WellNamed(ListedAs(listings, n, j)) &&
              (HeldBefore(listings, claimed, n, ListedAs(listings, n, j)) || BuiltBefore(listings, n, j))
  {
    hide Rows, Collides, HeldBefore, Usable, WellNamed, AllTools;
    var n := |listings| - 1;
    if listings[n].found.Ok? {
      var alias, ds := Alias(listings[n].server), listings[n].found.value;
      var held := claimed + NamesIn(AllTools(Rows(listings[..n], claimed)));
      CollidesIs(alias, ds, held);
      forall j: nat | j < |ds|
        ensures ListedAs(listings, n, j) == Prefixed(alias, ds[j].name)
        ensures Usable(ListedAs(listings, n, j)) <==> WellNamed(ListedAs(listings, n, j))
        ensures ListedAs(listings, n, j) in held <==> HeldBefore(listings, claimed, n, ListedAs(listings, n, j))
      {
        HeldIs(listings, claimed, n, ListedAs(listings, n, j));
        UsableIsWellNamed(ListedAs(listings, n, j));
      }
    }
  }
}

/** The built-in families: which tools a surface serves, and why it withholds the rest. */
module BuiltinTools {
  import opened Wrappers
  import opened Toolkit
  import opened ToolLists

  datatype Reason = AgentOnly | Filtered

  datatype Withheld = Withheld(tool: string, reason: Reason)

  datatype Surface = ForRun | ForMCP | ForA2A

  /** A family of built-ins; one that needs a store is ready if the caller passed it. */
  datatype Family = Family(source: Source, tools: seq<Tool>, ready: bool)

  /** A built-in as the surface sees it. */
  datatype Entry = Entry(tool: Tool, source: Source, ready: bool)

  function Entries(families: seq<Family>): seq<Entry> {
    if families == [] then []
    else
      var last := families[|families| - 1];
      Entries(families[..|families| - 1]) + FamilyEntries(last)
  }

  function FamilyEntries(f: Family): (r: seq<Entry>)
    ensures |r| == |f.tools| && forall i :: 0 <= i < |r| ==> r[i] == Entry(f.tools[i], f.source, f.ready)
  {
    seq(|f.tools|, i requires 0 <= i < |f.tools| => Entry(f.tools[i], f.source, f.ready))
  }

  /** Why a served surface leaves a built-in out on its declaration alone. */
  function WithheldReason(t: Tool, surface: Surface): Option<Reason> {
    match surface
    case ForRun => None
    case ForMCP => if t.onMCP then None else Some(AgentOnly)
    case ForA2A => if t.onA2A then None else Some(AgentOnly)
  }

  predicate Served(filters: seq<Filter>, surface: Surface, t: Tool) {
    WithheldReason(t, surface).None? && KeptBy(filters, t)
  }

  function ServedRows(filters: seq<Filter>, surface: Surface, entries: seq<Entry>): seq<Assembled> {
    if entries == [] then []
    else
      var e := entries[|entries| - 1];
      ServedRows(filters, surface, entries[..|entries| - 1]) +
      if Served(filters, surface, e.tool) then [Assembled(e.tool, Builtin, e.source)] else []
  }

  function WithheldRows(filters: seq<Filter>, surface: Surface, entries: seq<Entry>): seq<Withheld> {
    if entries == [] then []
    else
      var t := entries[|entries| - 1].tool;
      WithheldRows(filters, surface, entries[..|entries| - 1]) +
      if surface.ForRun? || Served(filters, surface, t) then []
      else [Withheld(t.name, if WithheldReason(t, surface).Some? then AgentOnly else Filtered)]
  }

  /** What the built-ins need: an open store for each one served, and a free name. */
  predicate BuiltinsFit(filters: seq<Filter>, surface: Surface, claimed: set<string>, entries: seq<Entry>) {
    && (forall i :: 0 <= i < |entries| && Served(filters, surface, entries[i].tool) ==> surface.ForRun? || entries[i].ready)
    && DistinctNames(ToolsOf(ServedRows(filters, surface, entries)))
    && Names(ServedRows(filters, surface, entries)) !! claimed
  }

  lemma {:induction false} ServedRowsOfJoin(filters: seq<Filter>, surface: Surface, a: seq<Entry>, b: seq<Entry>)
    ensures ServedRows(filters, surface, a + b) == ServedRows(filters, surface, a) + ServedRows(filters, surface, b)
  {
    hide Served;
    if b == [] {
      assert a + b == a;
    } else {
      ServedRowsOfJoin(filters, surface, a, b[..|b| - 1]);
      assert (a + b)[..|a + b| - 1] == a + b[..|b| - 1];
    }
  }

  lemma BuiltinsFitInPart(filters: seq<Filter>, surface: Surface, claimed: set<string>, a: seq<Entry>, b: seq<Entry>)
    requires BuiltinsFit(filters, surface, claimed, a + b)
    ensures BuiltinsFit(filters, surface, claimed, a)
  {
    hide Served;
    ServedRowsOfJoin(filters, surface, a, b);
    var rows := ServedRows(filters, surface, a + b);
    var part := ServedRows(filters, surface, a);
    assert ToolsOf(part) == ToolsOf(rows)[..|part|];
    NamesOfMore(part, ServedRows(filters, surface, b));
    assert forall i :: 0 <= i < |a| ==> (a + b)[i] == a[i];
  }

  lemma NothingToFit(filters: seq<Filter>, surface: Surface, claimed: set<string>)
    ensures BuiltinsFit(filters, surface, claimed, []) && ServedRows(filters, surface, []) == []
    ensures WithheldRows(filters, surface, []) == [] && Names([]) == {}
  {
  }

  lemma DistinctByOne(rows: seq<Assembled>, t: Tool)
    requires DistinctNames(ToolsOf(rows))
    ensures DistinctNames(ToolsOf(rows) + [t]) <==> t.name !in Names(rows)
  {
    var ts := ToolsOf(rows);
    if t.name in Names(rows) {
      var i :| 0 <= i < |rows| && rows[i].tool.name == t.name;
      assert (ts + [t])[i].name == (ts + [t])[|ts|].name;
    } else {
      assert forall i :: 0 <= i < |rows| ==> rows[i].tool.name in Names(rows);
    }
  }

  /** The next built-in is served or withheld, and fits exactly when its store is open and its name free. */
  lemma OneMoreEntry(filters: seq<Filter>, surface: Surface, claimed: set<string>, done: seq<Entry>, e: Entry)
    requires BuiltinsFit(filters, surface, claimed, done)
    ensures ServedRows(filters, surface, done + [e]) == ServedRows(filters, surface, done) +
              if Served(filters, surface, e.tool) then [Assembled(e.tool, Builtin, e.source)] else []
    ensures Names(ServedRows(filters, surface, done + [e])) == Names(ServedRows(filters, surface, done)) +
              if Served(filters, surface, e.tool) then {e.tool.name} else {}
    ensures WithheldRows(filters, surface, done + [e]) == WithheldRows(filters, surface, done) +
              if surface.ForRun? || Served(filters, surface, e.tool) then []
              else [Withheld(e.tool.name, if WithheldReason(e.tool, surface).Some? then AgentOnly else Filtered)]
    ensures BuiltinsFit(filters, surface, claimed, done + [e]) <==>
              (Served(filters, surface, e.tool) ==>
                 (surface.ForRun? || e.ready) && e.tool.name !in claimed + Names(ServedRows(filters, surface, done)))
  {
    hide Served;
    var rows := ServedRows(filters, surface, done);
    assert (done + [e])[..|done|] == done;
    var more := ServedRows(filters, surface, done + [e]);
    assert forall i :: 0 <= i < |done| ==> (done + [e])[i] == done[i];
    assert (done + [e])[|done|] == e;
    if Served(filters, surface, e.tool) {
      NamesOfMore(rows, [Assembled(e.tool, Builtin, e.source)]);
      assert ToolsOf(more) == ToolsOf(rows) + [e.tool];
      DistinctByOne(rows, e.tool);
    }
  }

  lemma EntriesOneMore(families: seq<Family>)
    requires families != []
    ensures var n := |families| - 1;
            Entries(families) == Entries(families[..n]) + FamilyEntries(families[n])
  {
  }

  lemma {:induction false} RestOfEntries(families: seq<Family>, i: nat, j: nat) returns (rest: seq<Entry>)
    requires i < |families| && j < |families[i].tools|
    ensures Entries(families) == Entries(families[..i]) + FamilyEntries(families[i])[..j + 1] + rest
    decreases |families|
  {
    hide Entries;
    var n := |families| - 1;
    EntriesOneMore(families);
    if i == n {
      var own := FamilyEntries(families[i]);
      rest := own[j + 1..];
      assert own == own[..j + 1] + rest;
    } else {
      rest := RestOfEntries(families[..n], i, j);
      assert families[..n][..i] == families[..i];
      rest := rest + FamilyEntries(families[n]);
    }
  }

  lemma EntryIsThere(families: seq<Family>, i: nat, j: nat)
    requires i < |families| && j < |families[i].tools|
    ensures FamilyEntries(families[i])[j] in Entries(families)
  {
    hide Entries;
    var rest := RestOfEntries(families, i, j);
    var own := FamilyEntries(families[i]);
    assert own[..j + 1][j] == own[j];
  }

  lemma NoneFitPast(filters: seq<Filter>, surface: Surface, claimed: set<string>, families: seq<Family>, i: nat, j: nat)
    requires i < |families| && j < |families[i].tools|
    requires !BuiltinsFit(filters, surface, claimed, Entries(families[..i]) + FamilyEntries(families[i])[..j + 1])
    ensures !BuiltinsFit(filters, surface, claimed, Entries(families))
  {
    hide BuiltinsFit, Entries;
    var rest := RestOfEntries(families, i, j);
    if BuiltinsFit(filters, surface, claimed, Entries(families)) {
      BuiltinsFitInPart(filters, surface, claimed, Entries(families[..i]) + FamilyEntries(families[i])[..j + 1], rest);
    }
  }

  lemma {:induction false} ServedAreKept(filters: seq<Filter>, surface: Surface, entries: seq<Entry>)
    ensures AllOf(ServedRows(filters, surface, entries), Builtin) && AllKept(filters, ServedRows(filters, surface, entries))
  {
    hide KeptBy, WithheldReason;
    if entries != [] {
      ServedAreKept(filters, surface, entries[..|entries| - 1]);
    }
  }

  function WhyWithheld(e: Entry, surface: Surface): Withheld {
    Withheld(e.tool.name, if WithheldReason(e.tool, surface).Some? then AgentOnly else Filtered)
  }

  /** On a served surface every built-in is among the tools or withheld, with the reason. */
  lemma {:induction false} ServedOrWithheld(filters: seq<Filter>, surface: Surface, entries: seq<Entry>, e: Entry)
    requires !surface.ForRun? && e in entries
    ensures if Served(filters, surface, e.tool)
            then Assembled(e.tool, Builtin, e.source) in ServedRows(filters, surface, entries)
            else WhyWithheld(e, surface) in WithheldRows(filters, surface, entries)
  {
    hide Served;
    var n := |entries| - 1;
    if e != entries[n] {
      ServedOrWithheld(filters, surface, entries[..n], e);
    }
  }

  /** And never in both: each row of either comes from a built-in of its own kind, one row each. */
  lemma {:induction false} NeverBoth(filters: seq<Filter>, surface: Surface, entries: seq<Entry>)
    requires !surface.ForRun?
    ensures |ServedRows(filters, surface, entries)| + |WithheldRows(filters, surface, entries)| == |entries|
    ensures forall r :: r in ServedRows(filters, surface, entries) ==> Served(filters, surface, r.tool)
    ensures forall w :: w in WithheldRows(filters, surface, entries) ==>
              exists i :: 0 <= i < |entries| && WhyWithheld(entries[i], surface) == w &&
                          !Served(filters, surface, entries[i].tool)
  {
    hide Served;
    if entries != [] {
      var n := |entries| - 1;
      var sofar := entries[..n];
      NeverBoth(filters, surface, sofar);
      forall w | w in WithheldRows(filters, surface, entries)
        ensures exists i :: 0 <= i < |entries| && WhyWithheld(entries[i], surface) == w &&
                            !Served(filters, surface, entries[i].tool)
      {
        if w in WithheldRows(filters, surface, sofar) {
          var i :| 0 <= i < |sofar| && WhyWithheld(sofar[i], surface) == w && !Served(filters, surface, sofar[i].tool);
          assert entries[i] == sofar[i];
        } else {
          assert WhyWithheld(entries[n], surface) == w;
        }
      }
    }
  }

  /** Commands come first, so nothing is new about them: only what follows is. */
  lemma CommandsAreSound(filters: seq<Filter>, commands: seq<Tool>)
    ensures var rows := AsKind(Kept(filters, commands), Application, FromApplication);
            && Sound(filters, rows, NamesIn(Kept(filters, commands)), |rows|) && UpTo(rows, Builtin)
            && RemoteNames(rows) == {}
  {
    hide KeptBy;
    var kept := Kept(filters, commands);
    var rows := AsKind(kept, Application, FromApplication);
    KeptIsAPart(filters, commands);
    NamesOfKind(rows, Application);
    assert ToolsOf(rows) == kept;
    forall i | 0 <= i < |rows| ensures KeptBy(filters, rows[i].tool) {
      assert kept[i] in kept;
    }
  }

  lemma BuiltinsJoin(filters: seq<Filter>, rows: seq<Assembled>, claimed: set<string>, k: nat,
                     surface: Surface, part: seq<Entry>)
    requires Sound(filters, rows, claimed, k) && UpTo(rows, Builtin) && RemoteNames(rows) == {}
    requires BuiltinsFit(filters, surface, claimed, part)
    ensures var added := ServedRows(filters, surface, part);
            && Sound(filters, rows + added, claimed + Names(added), k) && UpTo(rows + added, Builtin)
            && RemoteNames(rows + added) == {}
  {
    hide KeptBy, Served, ServedRows;
    var added := ServedRows(filters, surface, part);
    ServedAreKept(filters, surface, part);
    NamesAreClaimed(filters, rows, claimed, k);
    MoreStaysSound(filters, rows, claimed, k, added, Builtin);
  }
}

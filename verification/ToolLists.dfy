/** The list of an agent's tools: what every step of building it keeps, and how it is read. */
module ToolLists {
  import opened Wrappers
  import opened Toolkit

  datatype Source =
    | FromApplication | FromHumanInTheLoop | FromMemory | FromKnowledge | FromTools
    | FromHost(alias: string) | FromServer(alias: string) | FromCustom

  datatype Assembled = Assembled(tool: Tool, kind: Kind, source: Source)

  // ----- rows of tools

  function ToolsOf(rows: seq<Assembled>): (r: seq<Tool>)
    ensures |r| == |rows| && forall i :: 0 <= i < |rows| ==> r[i] == rows[i].tool
  {
    seq(|rows|, i requires 0 <= i < |rows| => rows[i].tool)
  }

  function AsKind(tools: seq<Tool>, kind: Kind, source: Source): (r: seq<Assembled>)
    ensures |r| == |tools| && forall i :: 0 <= i < |tools| ==> r[i] == Assembled(tools[i], kind, source)
  {
    seq(|tools|, i requires 0 <= i < |tools| => Assembled(tools[i], kind, source))
  }

  lemma ToolsOfMore(a: seq<Assembled>, b: seq<Assembled>)
    ensures ToolsOf(a + b) == ToolsOf(a) + ToolsOf(b)
  {
  }

  function Names(rows: seq<Assembled>): set<string> {
    set r | r in rows :: r.tool.name
  }

  function NonRemoteNames(rows: seq<Assembled>): set<string> {
    set r | r in rows && r.kind != Remote :: r.tool.name
  }

  function RemoteNames(rows: seq<Assembled>): set<string> {
    set r | r in rows && r.kind == Remote :: r.tool.name
  }

  function Rank(k: Kind): nat {
    match k
    case Unknown => 0
    case Application => 1
    case Builtin => 2
    case Remote => 3
    case MCP => 4
    case Custom => 5
  }

  /** From position k on, every name is new. */
  predicate NewFrom(rows: seq<Assembled>, k: nat) {
    forall i, j :: 0 <= i < j < |rows| && k <= j ==> rows[i].tool.name != rows[j].tool.name
  }

  predicate InOrder(rows: seq<Assembled>) {
    && (forall i :: 0 <= i < |rows| ==> rows[i].kind != Unknown)
    && forall i, j :: 0 <= i < j < |rows| ==> Rank(rows[i].kind) <= Rank(rows[j].kind)
  }

  predicate UpTo(rows: seq<Assembled>, kind: Kind) {
    forall i :: 0 <= i < |rows| ==> Rank(rows[i].kind) <= Rank(kind)
  }

  predicate AllKept(filters: seq<Filter>, rows: seq<Assembled>) {
    forall i :: 0 <= i < |rows| ==> KeptBy(filters, rows[i].tool)
  }

  /**
    What every step keeps: names beyond the first k rows are new, the filters keep every
    tool, claimed holds the names that are not remote, and rows stand in dispatch order.
   */
  predicate Sound(filters: seq<Filter>, rows: seq<Assembled>, claimed: set<string>, k: nat) {
    NewFrom(rows, k) && AllKept(filters, rows) && claimed == NonRemoteNames(rows) && InOrder(rows)
  }

  predicate AllOf(rows: seq<Assembled>, kind: Kind) {
    forall i :: 0 <= i < |rows| ==> rows[i].kind == kind
  }

  lemma NamesOfMore(rows: seq<Assembled>, more: seq<Assembled>)
    ensures Names(rows + more) == Names(rows) + Names(more)
    ensures NonRemoteNames(rows + more) == NonRemoteNames(rows) + NonRemoteNames(more)
    ensures RemoteNames(rows + more) == RemoteNames(rows) + RemoteNames(more)
  {
  }

  lemma NamesOfKind(rows: seq<Assembled>, kind: Kind)
    requires AllOf(rows, kind)
    ensures Names(rows) == NamesIn(ToolsOf(rows))
    ensures NonRemoteNames(rows) == if kind == Remote then {} else Names(rows)
    ensures RemoteNames(rows) == if kind == Remote then Names(rows) else {}
  {
    assert forall i :: 0 <= i < |rows| ==> rows[i].tool in ToolsOf(rows) && rows[i] in rows;
    assert forall t :: t in ToolsOf(rows) ==> exists i :: 0 <= i < |rows| && rows[i].tool == t;
  }

  /** Without remote tools, the claimed names are all the names. */
  lemma NamesAreClaimed(filters: seq<Filter>, rows: seq<Assembled>, claimed: set<string>, k: nat)
    requires Sound(filters, rows, claimed, k)
    ensures Names(rows) == claimed + RemoteNames(rows)
  {
  }

  /** Rows of one kind under new, distinct names, that the filters keep. */
  predicate Joins(filters: seq<Filter>, rows: seq<Assembled>, added: seq<Assembled>, kind: Kind) {
    && AllOf(added, kind) && AllKept(filters, added)
    && DistinctNames(ToolsOf(added)) && Names(added) !! Names(rows)
  }

  lemma MoreStaysSound(filters: seq<Filter>, rows: seq<Assembled>, claimed: set<string>, k: nat,
                       added: seq<Assembled>, kind: Kind)
    requires Sound(filters, rows, claimed, k) && UpTo(rows, kind) && kind != Unknown
    requires Joins(filters, rows, added, kind)
    ensures Sound(filters, rows + added, if kind == Remote then claimed else claimed + Names(added), k)
    ensures UpTo(rows + added, kind)
    ensures RemoteNames(rows + added) == RemoteNames(rows) + if kind == Remote then Names(added) else {}
  {
    hide KeptBy;
    NamesOfMore(rows, added);
    NamesOfKind(added, kind);
    forall i, j | 0 <= i < j < |rows + added| && k <= j
      ensures (rows + added)[i].tool.name != (rows + added)[j].tool.name
    {
      if i < |rows| <= j {
        assert rows[i].tool.name in Names(rows) && added[j - |rows|].tool.name in Names(added);
      } else if |rows| <= i {
        assert ToolsOf(added)[i - |rows|].name != ToolsOf(added)[j - |rows|].name;
      }
    }
  }

  lemma NoRemoteYet(rows: seq<Assembled>)
    requires UpTo(rows, Builtin)
    ensures RemoteNames(rows) == {} && UpTo(rows, Remote)
  {
  }

  lemma CustomComesLast(rows: seq<Assembled>)
    requires UpTo(rows, MCP)
    ensures UpTo(rows, Custom)
  {
  }

  lemma NoNames()
    ensures Names([]) == {}
  {
  }

  lemma NothingAssembled()
    ensures UpTo([], Builtin) && RemoteNames([]) == {}
  {
  }

  lemma EmptyIsSound()
    ensures forall filters, k: nat :: Sound(filters, [], {}, k)
  {
  }

  function KindIn(rows: seq<Assembled>, name: string): (k: Kind)
    ensures name !in Names(rows) ==> k == Unknown
    ensures name in Names(rows) ==> exists i :: 0 <= i < |rows| && rows[i].tool.name == name && rows[i].kind == k
  {
    if rows == [] then Unknown
    else if rows[0].tool.name == name then rows[0].kind
    else
      assert forall i :: 0 <= i < |rows[1..]| ==> rows[1..][i] == rows[i + 1];
      KindIn(rows[1..], name)
  }

  // ----- what a list comes to

  /** Names are distinct exactly when the commands the filters keep have distinct names. */
  lemma DistinctUnlessCommandsClash(filters: seq<Filter>, rows: seq<Assembled>, claimed: set<string>, commands: seq<Tool>)
    requires Sound(filters, rows, claimed, |commands|)
    requires |commands| <= |rows| && rows[..|commands|] == AsKind(commands, Application, FromApplication)
    ensures DistinctNames(ToolsOf(rows)) <==> DistinctNames(commands)
  {
    hide KeptBy;
    assert forall i :: 0 <= i < |commands| ==> rows[..|commands|][i] == rows[i];
    if DistinctNames(ToolsOf(rows)) {
      forall i, j | 0 <= i < j < |commands| ensures commands[i].name != commands[j].name {
        assert ToolsOf(rows)[i].name != ToolsOf(rows)[j].name;
      }
    }
  }

  function View(rows: seq<Assembled>, kinds: set<Kind>): seq<Tool> {
    if rows == [] then []
    else
      var last := rows[|rows| - 1];
      View(rows[..|rows| - 1], kinds) + if last.kind in kinds then [last.tool] else []
  }

  lemma ViewOfMore(rows: seq<Assembled>, kinds: set<Kind>)
    requires rows != []
    ensures var last := rows[|rows| - 1];
            View(rows, kinds) == View(rows[..|rows| - 1], kinds) + if last.kind in kinds then [last.tool] else []
  {
  }

  lemma ViewsOfNone()
    ensures forall kinds :: View([], kinds) == []
  {
  }

  lemma CountedInView(rows: seq<Assembled>, kinds: set<Kind>)
    requires rows != []
    ensures var last := rows[|rows| - 1];
            multiset(View(rows, kinds)) ==
            multiset(View(rows[..|rows| - 1], kinds)) + if last.kind in kinds then multiset{last.tool} else multiset{}
  {
    hide View;
    ViewOfMore(rows, kinds);
  }

  lemma InFourViews(rows: seq<Assembled>)
    requires rows != [] && rows[|rows| - 1].kind != Unknown
    ensures var sofar, last := rows[..|rows| - 1], rows[|rows| - 1];
            FourViews(rows) == FourViews(sofar) + multiset{last.tool}
  {
    hide View;
    CountedInView(rows, {Builtin});
    CountedInView(rows, {Application, Remote});
    CountedInView(rows, {MCP});
    CountedInView(rows, {Custom});
  }

  /** The four views, put together. */
  function FourViews(rows: seq<Assembled>): multiset<Tool> {
    multiset(View(rows, {Builtin})) + multiset(View(rows, {Application, Remote})) +
    multiset(View(rows, {MCP})) + multiset(View(rows, {Custom}))
  }

  lemma NoViews()
    ensures FourViews([]) == multiset{}
  {
  }

  /** Every tool is in exactly one of the four views, as often as it is assembled. */
  lemma {:induction false} ViewsPartition(rows: seq<Assembled>)
    requires InOrder(rows)
    ensures multiset(ToolsOf(rows)) == FourViews(rows)
  {
    hide FourViews;
    if rows == [] {
      NoViews();
    } else {
      var sofar, last := rows[..|rows| - 1], rows[|rows| - 1];
      ViewsPartition(sofar);
      InFourViews(rows);
      assert ToolsOf(rows) == ToolsOf(sofar) + [last.tool];
    }
  }

  lemma {:induction false} NoneOfLaterKinds(rows: seq<Assembled>, upto: Kind, kind: Kind)
    requires UpTo(rows, upto) && Rank(upto) < Rank(kind)
    ensures View(rows, {kind}) == []
  {
    if rows != [] {
      NoneOfLaterKinds(rows[..|rows| - 1], upto, kind);
    }
  }

  lemma OnlyItsOwnKindLast(rows: seq<Assembled>, last: Assembled)
    requires UpTo(rows, last.kind)
    ensures last.kind == Application ==> View(rows, {Builtin}) == []
    ensures last.kind in {Application, Builtin} ==> View(rows, {Remote}) == []
    ensures last.kind in {Application, Builtin, Remote} ==> View(rows, {MCP}) == []
    ensures last.kind in {Application, Builtin, Remote, MCP} ==> View(rows, {Custom}) == []
  {
    hide View, UpTo;
    forall kind | Rank(last.kind) < Rank(kind) ensures View(rows, {kind}) == [] {
      NoneOfLaterKinds(rows, last.kind, kind);
    }
    assert Rank(Builtin) == 2 && Rank(Remote) == 3 && Rank(MCP) == 4 && Rank(Custom) == 5;
  }

  /** The list is its kinds one after another, in the order they are dispatched. */
  lemma {:induction false} ViewsInOrder(rows: seq<Assembled>)
    requires InOrder(rows)
    ensures ToolsOf(rows) == View(rows, {Application}) + View(rows, {Builtin}) + View(rows, {Remote}) +
                             View(rows, {MCP}) + View(rows, {Custom})
  {
    hide View;
    ViewsOfNone();
    if rows != [] {
      var sofar, last := rows[..|rows| - 1], rows[|rows| - 1];
      ViewsInOrder(sofar);
      ViewOfMore(rows, {Application});
      ViewOfMore(rows, {Builtin});
      ViewOfMore(rows, {Remote});
      ViewOfMore(rows, {MCP});
      ViewOfMore(rows, {Custom});
      assert UpTo(sofar, last.kind);
      assert ToolsOf(rows) == ToolsOf(sofar) + [last.tool];
      OnlyItsOwnKindLast(sofar, last);
    }
  }
}

/** The caller's own tools: when a list of them is taken, and what it becomes. */
module CustomTools {
  import opened Wrappers
  import opened Toolkit
  import opened NameOrder
  import opened ToolLists

  /** What a kept custom tool must be: named as it is defined, shadowing nothing, and run in this process. */
  predicate CustomFits(rows: seq<Assembled>, remote: set<string>, t: Tool) {
    && t.definition == t.name && t.name !in remote && t.name !in Names(rows)
    && t.declares != Some(Remote) && t.declares != Some(MCP)
  }

  predicate CustomTakes(filters: seq<Filter>, rows: seq<Assembled>, remote: set<string>, c: Option<Tool>) {
    c.Some? && c.value.name != "" && (KeptBy(filters, c.value) ==> CustomFits(rows, remote, c.value))
  }

  /** The tools of a custom list that the filters keep. */
  predicate IsKeptCustom(filters: seq<Filter>, c: Option<Tool>) {
    c.Some? && KeptBy(filters, c.value)
  }

  predicate CustomDistinct(filters: seq<Filter>, custom: seq<Option<Tool>>) {
    forall i, j :: 0 <= i < j < |custom| && IsKeptCustom(filters, custom[i]) && IsKeptCustom(filters, custom[j]) ==>
                     custom[i].value.name != custom[j].value.name
  }

  /** When a custom list is taken, whatever order it comes in. */
  predicate CustomOk(filters: seq<Filter>, rows: seq<Assembled>, remote: set<string>, custom: seq<Option<Tool>>) {
    && (forall i :: 0 <= i < |custom| ==> CustomTakes(filters, rows, remote, custom[i]))
    && CustomDistinct(filters, custom)
  }

  function NameList(tools: seq<Tool>): (r: seq<string>)
    ensures |r| == |tools| && forall i :: 0 <= i < |tools| ==> r[i] == tools[i].name
  {
    seq(|tools|, i requires 0 <= i < |tools| => tools[i].name)
  }

  /** The kept custom tools, each once, sorted by name. */
  ghost predicate CustomSorted(filters: seq<Filter>, custom: seq<Option<Tool>>, tools: seq<Tool>) {
    && Ascending(NameList(tools))
    && forall t :: t in tools <==> KeptBy(filters, t) && Some(t) in custom
  }

  predicate ByName(filters: seq<Filter>, custom: seq<Option<Tool>>, byName: map<string, Tool>) {
    && (forall n :: n in byName ==> byName[n].name == n && KeptBy(filters, byName[n]) && Some(byName[n]) in custom)
    && forall i :: 0 <= i < |custom| && IsKeptCustom(filters, custom[i]) ==>
                     custom[i].value.name in byName && byName[custom[i].value.name] == custom[i].value
  }

  lemma NoCustom(filters: seq<Filter>, rows: seq<Assembled>, remote: set<string>)
    ensures CustomOk(filters, rows, remote, []) && ByName(filters, [], map[])
  {
  }

  lemma ByNameOneMore(filters: seq<Filter>, rows: seq<Assembled>, remote: set<string>,
                      custom: seq<Option<Tool>>, c: Option<Tool>, byName: map<string, Tool>)
    requires ByName(filters, custom, byName) && CustomOk(filters, rows, remote, custom)
    ensures CustomOk(filters, rows, remote, custom + [c]) <==>
            CustomTakes(filters, rows, remote, c) && (IsKeptCustom(filters, c) ==> c.value.name !in byName)
    ensures IsKeptCustom(filters, c) && c.value.name !in byName ==>
              ByName(filters, custom + [c], byName[c.value.name := c.value])
    ensures !IsKeptCustom(filters, c) ==> ByName(filters, custom + [c], byName)
  {
    hide KeptBy, CustomFits;
    var more := custom + [c];
    assert more[|custom|] == c && forall i :: 0 <= i < |custom| ==> more[i] == custom[i];
    if IsKeptCustom(filters, c) && c.value.name in byName {
      var t := byName[c.value.name];
      var i :| 0 <= i < |custom| && custom[i] == Some(t);
      assert more[i].value.name == more[|custom|].value.name && IsKeptCustom(filters, more[i]);
    }
  }

  /** The names the filters keep of a custom list. */
  function KeptCustomNames(filters: seq<Filter>, custom: seq<Option<Tool>>): set<string> {
    set c | c in custom && IsKeptCustom(filters, c) :: c.value.name
  }

  lemma CustomOkInPart(filters: seq<Filter>, rows: seq<Assembled>, remote: set<string>,
                       custom: seq<Option<Tool>>, i: nat)
    requires i <= |custom| && CustomOk(filters, rows, remote, custom)
    ensures CustomOk(filters, rows, remote, custom[..i])
  {
    hide KeptBy, CustomFits;
  }

  lemma SomewhereElse(a: seq<Option<Tool>>, b: seq<Option<Tool>>, i: nat)
    requires multiset(a) == multiset(b) && i < |b|
    ensures exists x :: 0 <= x < |a| && a[x] == b[i]
  {
    assert b[i] in multiset(a);
  }

  lemma DistinctIsCounted(filters: seq<Filter>, a: seq<Option<Tool>>, b: seq<Option<Tool>>)
    requires multiset(a) == multiset(b) && CustomDistinct(filters, a)
    ensures CustomDistinct(filters, b)
  {
    hide KeptBy;
    forall i, j | 0 <= i < j < |b| && IsKeptCustom(filters, b[i]) && IsKeptCustom(filters, b[j])
      ensures b[i].value.name != b[j].value.name
    {
      if b[i] == b[j] {
        TwiceIsCounted(b, i, j);
        var x, y := CountedIsTwice(a, b[i]);
      } else {
        SomewhereElse(a, b, i);
        SomewhereElse(a, b, j);
      }
    }
  }

  lemma SameNames(a: seq<Tool>, b: seq<Tool>, n: string)
    requires forall t :: t in a ==> t in b
    ensures n in NameList(a) ==> n in NameList(b)
  {
    if n in NameList(a) {
      var i :| 0 <= i < |a| && NameList(a)[i] == n;
      assert a[i] in b;
      var j :| 0 <= j < |b| && b[j] == a[i];
      assert NameList(b)[j] == n;
    }
  }

  lemma SortedIsUnique(filters: seq<Filter>, custom: seq<Option<Tool>>, a: seq<Tool>, b: seq<Tool>)
    requires CustomDistinct(filters, custom)
    requires Ascending(NameList(a)) && Ascending(NameList(b))
    requires forall t :: t in a <==> KeptBy(filters, t) && Some(t) in custom
    requires forall t :: t in b <==> t in a
    ensures a == b
  {
    hide KeptBy, Less, Ascending;
    forall n ensures n in NameList(a) <==> n in NameList(b) {
      SameNames(a, b, n);
      SameNames(b, a, n);
    }
    AscendingIsUnique(NameList(a), NameList(b));
    forall i | 0 <= i < |a| ensures a[i] == b[i] {
      assert a[i] in a && b[i] in b;
      assert NameList(a)[i] == NameList(b)[i];
      var x :| 0 <= x < |custom| && custom[x] == Some(a[i]);
      var y :| 0 <= y < |custom| && custom[y] == Some(b[i]);
      assert IsKeptCustom(filters, custom[x]) && IsKeptCustom(filters, custom[y]);
    }
  }

  /** Reordering the custom tools changes neither whether they are taken nor what they become. */
  lemma CustomOrderIsIrrelevant(filters: seq<Filter>, rows: seq<Assembled>, remote: set<string>,
                                a: seq<Option<Tool>>, b: seq<Option<Tool>>, fromA: seq<Tool>, fromB: seq<Tool>)
    requires multiset(a) == multiset(b)
    ensures CustomOk(filters, rows, remote, a) <==> CustomOk(filters, rows, remote, b)
    ensures CustomOk(filters, rows, remote, a) && CustomSorted(filters, a, fromA) && CustomSorted(filters, b, fromB)
            ==> fromA == fromB
  {
    hide KeptBy, CustomFits;
    assert forall c :: c in a <==> c in multiset(a);
    assert forall c :: c in b <==> c in multiset(b);
    if CustomDistinct(filters, a) { DistinctIsCounted(filters, a, b); }
    if CustomDistinct(filters, b) { DistinctIsCounted(filters, b, a); }
    assert (forall i :: 0 <= i < |a| ==> CustomTakes(filters, rows, remote, a[i])) <==>
           (forall c :: c in a ==> CustomTakes(filters, rows, remote, c));
    assert (forall i :: 0 <= i < |b| ==> CustomTakes(filters, rows, remote, b[i])) <==>
           (forall c :: c in b ==> CustomTakes(filters, rows, remote, c));
    if CustomOk(filters, rows, remote, a) && CustomSorted(filters, a, fromA) && CustomSorted(filters, b, fromB) {
      SortedIsUnique(filters, a, fromA, fromB);
    }
  }

  function Looked(byName: map<string, Tool>, names: seq<string>): (r: seq<Tool>)
    requires forall i :: 0 <= i < |names| ==> names[i] in byName
    ensures |r| == |names| && forall i :: 0 <= i < |names| ==> r[i] == byName[names[i]]
  {
    seq(|names|, i requires 0 <= i < |names| => byName[names[i]])
  }

  lemma OneMoreCustom(byName: map<string, Tool>, names: seq<string>, i: nat)
    requires i < |names| && forall j :: 0 <= j < |names| ==> names[j] in byName && byName[names[j]].name == names[j]
    ensures var sofar := AsKind(Looked(byName, names[..i]), Custom, FromCustom);
            var more := AsKind(Looked(byName, names[..i + 1]), Custom, FromCustom);
            more == sofar + [Assembled(byName[names[i]], Custom, FromCustom)] && Names(more) == Names(sofar) + {names[i]}
  {
    var sofar := AsKind(Looked(byName, names[..i]), Custom, FromCustom);
    NamesOfMore(sofar, [Assembled(byName[names[i]], Custom, FromCustom)]);
    assert AsKind(Looked(byName, names[..i + 1]), Custom, FromCustom) ==
           sofar + [Assembled(byName[names[i]], Custom, FromCustom)];
  }

  /** The kept custom tools, sorted, are each once in their place. */
  lemma LookedAreSorted(filters: seq<Filter>, custom: seq<Option<Tool>>, byName: map<string, Tool>, names: seq<string>)
    requires ByName(filters, custom, byName)
    requires Ascending(names) && forall n :: n in names <==> n in byName
    ensures forall j :: 0 <= j < |names| ==> names[j] in byName && byName[names[j]].name == names[j]
    ensures CustomSorted(filters, custom, Looked(byName, names))
  {
    hide KeptBy, Less;
    assert forall j :: 0 <= j < |names| ==> names[j] in names;
    var tools := Looked(byName, names);
    assert NameList(tools) == names;
    forall t ensures t in tools <==> KeptBy(filters, t) && Some(t) in custom {
      if t in tools {
        var j :| 0 <= j < |tools| && tools[j] == t;
        assert names[j] in byName;
      }
      if KeptBy(filters, t) && Some(t) in custom {
        var i :| 0 <= i < |custom| && custom[i] == Some(t);
        assert IsKeptCustom(filters, custom[i]);
        var j :| 0 <= j < |names| && names[j] == t.name;
        assert tools[j] == t;
      }
    }
  }

  lemma SortedJoins(filters: seq<Filter>, rows: seq<Assembled>, remote: set<string>, custom: seq<Option<Tool>>,
                    tools: seq<Tool>)
    requires CustomOk(filters, rows, remote, custom) && CustomSorted(filters, custom, tools)
    ensures Joins(filters, rows, AsKind(tools, Custom, FromCustom), Custom)
  {
    hide KeptBy, Less;
    var added := AsKind(tools, Custom, FromCustom);
    assert ToolsOf(added) == tools;
    forall i, j | 0 <= i < j < |tools| ensures tools[i].name != tools[j].name {
      assert Less(NameList(tools)[i], NameList(tools)[j]);
      LessIsTotal(tools[i].name, tools[i].name);
    }
    forall i | 0 <= i < |added| ensures added[i].tool.name !in Names(rows) && KeptBy(filters, added[i].tool) {
      assert Some(tools[i]) in custom by { assert tools[i] in tools; }
      var x :| 0 <= x < |custom| && custom[x] == Some(tools[i]);
      assert CustomTakes(filters, rows, remote, custom[x]);
    }
  }
}

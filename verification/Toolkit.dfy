/** The tools an assembly handles, their kinds, and the filters that leave them in or out. */
module Toolkit {
  import opened Wrappers

  datatype Kind = Unknown | Application | Builtin | Remote | MCP | Custom

  /** declares is the kind a tool describes itself as; the two flags are a built-in's exposure. */
  datatype Tool = Tool(
    name: string, tags: set<string>, definition: string, declares: Option<Kind>, onMCP: bool, onA2A: bool)

  /** A compiled include or exclude; one the configuration does not set keeps everything. */
  type Filter = Tool -> bool

  /** A tool another agent or server advertises; it may be one no tool can be built from. */
  datatype Descriptor = Descriptor(name: string, builds: bool)

  function Imported(name: string, kind: Kind): Tool {
    Tool(name, {}, name, Some(kind), false, false)
  }

  predicate Usable(name: string) {
    name != "" && forall i :: 0 <= i < |name| ==> NameChar(name[i])
  }

  predicate NameChar(c: char) {
    'a' <= c <= 'z' || 'A' <= c <= 'Z' || '0' <= c <= '9' || c == '_' || c == '-'
  }

  function Prefixed(alias: string, name: string): string {
    alias + "_" + name
  }

  predicate KeptBy(filters: seq<Filter>, t: Tool) {
    forall i :: 0 <= i < |filters| ==> filters[i](t)
  }

  function Kept(filters: seq<Filter>, tools: seq<Tool>): seq<Tool> {
    if tools == [] then []
    else
      var t := tools[|tools| - 1];
      Kept(filters, tools[..|tools| - 1]) + if KeptBy(filters, t) then [t] else []
  }

  method KeptTools(filters: seq<Filter>, tools: seq<Tool>) returns (kept: seq<Tool>)
    ensures kept == Kept(filters, tools)
  {
    kept := [];
    for i := 0 to |tools|
      invariant kept == Kept(filters, tools[..i])
    {
      assert tools[..i + 1][..i] == tools[..i];
      if KeptBy(filters, tools[i]) {
        kept := kept + [tools[i]];
      }
    }
    assert tools[..|tools|] == tools;
    if |kept| == |tools| {
      KeptAll(filters, tools);
      kept := tools;
    }
  }

  lemma {:induction false} KeptAll(filters: seq<Filter>, tools: seq<Tool>)
    ensures |Kept(filters, tools)| <= |tools|
    ensures |Kept(filters, tools)| == |tools| ==> Kept(filters, tools) == tools
  {
    if tools != [] {
      KeptAll(filters, tools[..|tools| - 1]);
    }
  }

  lemma KeptOfOneMore(filters: seq<Filter>, tools: seq<Tool>, t: Tool)
    ensures Kept(filters, tools + [t]) == Kept(filters, tools) + if KeptBy(filters, t) then [t] else []
    ensures Kept(filters, []) == []
  {
    hide KeptBy;
    assert (tools + [t])[..|tools|] == tools;
  }

  lemma {:induction false} KeptOfJoin(filters: seq<Filter>, a: seq<Tool>, b: seq<Tool>)
    ensures Kept(filters, a + b) == Kept(filters, a) + Kept(filters, b)
  {
    hide Kept, KeptBy;
    if b == [] {
      KeptOfOneMore(filters, [], Imported("", Unknown));
      assert a + b == a;
    } else {
      var front, t := b[..|b| - 1], b[|b| - 1];
      KeptOfJoin(filters, a, front);
      KeptOfOneMore(filters, a + front, t);
      KeptOfOneMore(filters, front, t);
      assert a + b == (a + front) + [t] && b == front + [t];
    }
  }

  function NamesIn(tools: seq<Tool>): set<string> {
    set t | t in tools :: t.name
  }

  predicate DistinctNames(tools: seq<Tool>) {
    forall i, j :: 0 <= i < j < |tools| ==> tools[i].name != tools[j].name
  }

  /** A filter only takes away: what is left is kept by every filter, and stays distinct. */
  lemma {:induction false} KeptIsAPart(filters: seq<Filter>, tools: seq<Tool>)
    ensures NamesIn(Kept(filters, tools)) <= NamesIn(tools)
    ensures forall t :: t in Kept(filters, tools) <==> t in tools && KeptBy(filters, t)
    ensures DistinctNames(tools) ==> DistinctNames(Kept(filters, tools))
  {
    if tools != [] {
      var sofar, t := tools[..|tools| - 1], tools[|tools| - 1];
      KeptIsAPart(filters, sofar);
      assert tools == sofar + [t];
      if DistinctNames(tools) {
        forall k | 0 <= k < |Kept(filters, sofar)| ensures Kept(filters, sofar)[k].name != t.name {
          assert Kept(filters, sofar)[k] in sofar;
        }
      }
    }
  }

  /** What is kept stands in the order it came in, and nothing that is kept is passed over. */
  lemma {:induction false} KeptInOrder(filters: seq<Filter>, tools: seq<Tool>) returns (at: seq<nat>)
    ensures |at| == |Kept(filters, tools)|
    ensures forall k :: 0 <= k < |at| ==> at[k] < |tools| && tools[at[k]] == Kept(filters, tools)[k]
    ensures forall k, m :: 0 <= k < m < |at| ==> at[k] < at[m]
    ensures forall i: nat :: i < |tools| ==> (i in at <==> forall f :: f in filters ==> f(tools[i]))
  {
    hide KeptBy, Kept;
    var kept := Kept(filters, tools);
    at := PlacesKept(filters, tools);
    forall i: nat | i < |tools| ensures i in at <==> forall f :: f in filters ==> f(tools[i]) {
      KeptIsAll(filters, tools[i]);
    }
  }

  lemma {:induction false} PlacesKept(filters: seq<Filter>, tools: seq<Tool>) returns (at: seq<nat>)
    ensures |at| == |Kept(filters, tools)|
    ensures forall k :: 0 <= k < |at| ==> at[k] < |tools| && tools[at[k]] == Kept(filters, tools)[k]
    ensures forall k, m :: 0 <= k < m < |at| ==> at[k] < at[m]
    ensures forall i: nat :: i < |tools| ==> (i in at <==> KeptBy(filters, tools[i]))
  {
    hide KeptBy, Kept;
    at := [];
    if tools == [] {
      NoneKept(filters);
    } else {
      var n := |tools| - 1;
      assert tools == tools[..n] + [tools[n]];
      KeptOfOneMore(filters, tools[..n], tools[n]);
      at := PlacesKept(filters, tools[..n]);
      assert n !in at;
      if KeptBy(filters, tools[n]) {
        at := at + [n];
      }
    }
  }

  lemma NoneKept(filters: seq<Filter>)
    ensures Kept(filters, []) == []
  {
  }

  lemma KeptIsAll(filters: seq<Filter>, t: Tool)
    ensures KeptBy(filters, t) <==> forall f :: f in filters ==> f(t)
  {
  }

  lemma KeptByOneMore(filters: seq<Filter>, g: Filter, t: Tool)
    ensures KeptBy(filters + [g], t) <==> KeptBy(filters, t) && g(t)
  {
    var more := filters + [g];
    assert more[|filters|] == g && forall i :: 0 <= i < |filters| ==> more[i] == filters[i];
  }

  /** A name the model can be given: some letters, digits, "_" and "-". */
  predicate WellNamed(name: string) {
    && |name| > 0
    && forall k :: 0 <= k < |name| ==>
         || name[k] == '_' || name[k] == '-' || ('0' <= name[k] && name[k] <= '9')
         || ('a' <= name[k] && name[k] <= 'z') || ('A' <= name[k] && name[k] <= 'Z')
  }

  lemma UsableIsWellNamed(name: string)
    ensures Usable(name) <==> WellNamed(name)
  {
    assert forall k :: 0 <= k < |name| ==> (NameChar(name[k]) <==>
      || name[k] == '_' || name[k] == '-' || ('0' <= name[k] && name[k] <= '9')
      || ('a' <= name[k] && name[k] <= 'z') || ('A' <= name[k] && name[k] <= 'Z'));
  }

  // ----- what is there twice

  lemma TwiceIsCounted<T>(s: seq<T>, i: nat, j: nat)
    requires i < j < |s| && s[i] == s[j]
    ensures multiset(s)[s[i]] >= 2
  {
    assert s == s[..j] + s[j..];
    assert s[..j][i] == s[i] && s[j..][0] == s[j];
  }

  lemma {:induction false} CountedIsTwice<T>(s: seq<T>, c: T) returns (i: nat, j: nat)
    requires multiset(s)[c] >= 2
    ensures i < j < |s| && s[i] == s[j] == c
  {
    var n := |s| - 1;
    assert s == s[..n] + [s[n]];
    if s[n] == c {
      assert c in multiset(s[..n]);
      i :| 0 <= i < n && s[..n][i] == c;
      j := n;
    } else {
      i, j := CountedIsTwice(s[..n], c);
    }
  }
}

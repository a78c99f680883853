/** How the tools imported from other agents get the names the model calls them by. */
module RemoteTools {
  import opened Wrappers
  import opened Toolkit

  datatype Host = Host(name: string, alias: string)

  function Alias(h: Host): string {
    if h.alias != "" then h.alias else h.name
  }

  datatype Failure = Undiscovered(host: string, reason: string) | Collided

  /** One host's outcome: what it advertised or why not, and the tools built from it. */
  datatype HostImport = HostImport(host: Host, found: Result<seq<Descriptor>, string>, tools: seq<Tool>)

  datatype Offer = Offer(alias: string, descriptor: Descriptor)

  function OffersOf(alias: string, ds: seq<Descriptor>): (r: seq<Offer>)
    ensures |r| == |ds| && forall i :: 0 <= i < |ds| ==> r[i] == Offer(alias, ds[i])
  {
    seq(|ds|, i requires 0 <= i < |ds| => Offer(alias, ds[i]))
  }

  function Offers(imports: seq<HostImport>): seq<Offer> {
    if imports == [] then []
    else
      var last := imports[|imports| - 1];
      Offers(imports[..|imports| - 1]) + if last.found.Ok? then OffersOf(Alias(last.host), last.found.value) else []
  }

  /** The bare names every answering host offers, with how often each is offered. */
  function BareNames(offers: seq<Offer>): multiset<string> {
    if offers == [] then multiset{}
    else BareNames(offers[..|offers| - 1]) + multiset{offers[|offers| - 1].descriptor.name}
  }

  /** A bare name held here, or offered twice, is prefixed with its host's alias. */
  function FinalName(taken: set<string>, bare: multiset<string>, o: Offer): string {
    if o.descriptor.name in taken || bare[o.descriptor.name] > 1
    then Prefixed(o.alias, o.descriptor.name)
    else o.descriptor.name
  }

  function FinalNames(taken: set<string>, bare: multiset<string>, offers: seq<Offer>): multiset<string> {
    if offers == [] then multiset{}
    else FinalNames(taken, bare, offers[..|offers| - 1]) + multiset{FinalName(taken, bare, offers[|offers| - 1])}
  }

  predicate Clashes(taken: set<string>, finals: multiset<string>, name: string) {
    Usable(name) && (name in taken || finals[name] > 1)
  }

  /** The tools built from some offers, once every final name has been counted. */
  function Named(taken: set<string>, bare: multiset<string>, finals: multiset<string>, offers: seq<Offer>): seq<Tool> {
    if offers == [] then []
    else
      var o := offers[|offers| - 1];
      var name := FinalName(taken, bare, o);
      Named(taken, bare, finals, offers[..|offers| - 1]) +
      if Usable(name) && !Clashes(taken, finals, name) && o.descriptor.builds then [Imported(name, Remote)] else []
  }

  /** The tools of every host, in host order. */
  function AllTools(imports: seq<HostImport>): seq<Tool> {
    if imports == [] then [] else AllTools(imports[..|imports| - 1]) + imports[|imports| - 1].tools
  }

  lemma {:induction false} NamedOfJoin(taken: set<string>, bare: multiset<string>, finals: multiset<string>,
                                       a: seq<Offer>, b: seq<Offer>)
    ensures Named(taken, bare, finals, a + b) == Named(taken, bare, finals, a) + Named(taken, bare, finals, b)
  {
    hide FinalName, Clashes, Usable;
    if b == [] {
      assert a + b == a;
    } else {
      NamedOfJoin(taken, bare, finals, a, b[..|b| - 1]);
      assert (a + b)[..|a + b| - 1] == a + b[..|b| - 1];
    }
  }

  /** No two of the built tools share a name, and none takes a name that was held. */
  lemma {:induction false} NamedAreDistinct(taken: set<string>, bare: multiset<string>, finals: multiset<string>,
                                            offers: seq<Offer>)
    requires FinalNames(taken, bare, offers) <= finals
    ensures var tools := Named(taken, bare, finals, offers);
            && DistinctNames(tools) && NamesIn(tools) !! taken
            && forall t :: t in tools ==> t.name in FinalNames(taken, bare, offers) && t == Imported(t.name, Remote)
  {
    hide FinalName, Usable;
    if offers != [] {
      var sofar := offers[..|offers| - 1];
      assert FinalNames(taken, bare, sofar) <= FinalNames(taken, bare, offers);
      NamedAreDistinct(taken, bare, finals, sofar);
      var name := FinalName(taken, bare, offers[|offers| - 1]);
      if name in FinalNames(taken, bare, sofar) {
        assert FinalNames(taken, bare, offers)[name] >= 2;
        assert finals[name] >= 2;
      }
    }
  }

  /** The import's rows: each host that answered holds the tools built from its own offers. */
  function Resolved(taken: set<string>, imports: seq<HostImport>): (rows: seq<HostImport>)
    ensures |rows| == |imports|
    ensures forall i :: 0 <= i < |rows| ==>
              rows[i].host == imports[i].host && rows[i].found == imports[i].found && (rows[i].found.Err? ==> rows[i].tools == [])
  {
    var bare := BareNames(Offers(imports));
    var finals := FinalNames(taken, bare, Offers(imports));
    seq(|imports|, i requires 0 <= i < |imports| => imports[i].(tools := ToolsFor(taken, bare, finals, imports[i])))
  }

  function ToolsFor(taken: set<string>, bare: multiset<string>, finals: multiset<string>, row: HostImport)
    : (tools: seq<Tool>)
    ensures row.found.Err? ==> tools == []
  {
    if row.found.Ok? then Named(taken, bare, finals, OffersOf(Alias(row.host), row.found.value)) else []
  }

  predicate RowIsNamed(taken: set<string>, bare: multiset<string>, finals: multiset<string>, row: HostImport) {
    row.tools == ToolsFor(taken, bare, finals, row)
  }

  lemma {:induction false} RowsJoinUp(taken: set<string>, bare: multiset<string>, finals: multiset<string>,
                                      rows: seq<HostImport>)
    requires forall i :: 0 <= i < |rows| ==> RowIsNamed(taken, bare, finals, rows[i])
    ensures AllTools(rows) == Named(taken, bare, finals, Offers(rows))
  {
    hide Named;
    if rows == [] {
      assert Named(taken, bare, finals, []) == [] by { NamedOfNone(taken, bare, finals); }
    } else {
      var last := rows[|rows| - 1];
      RowsJoinUp(taken, bare, finals, rows[..|rows| - 1]);
      var own := if last.found.Ok? then OffersOf(Alias(last.host), last.found.value) else [];
      NamedOfJoin(taken, bare, finals, Offers(rows[..|rows| - 1]), own);
      NamedOfNone(taken, bare, finals);
      assert RowIsNamed(taken, bare, finals, last);
    }
  }

  lemma NamedOfNone(taken: set<string>, bare: multiset<string>, finals: multiset<string>)
    ensures Named(taken, bare, finals, []) == []
  {
  }

  predicate SameHosts(a: seq<HostImport>, b: seq<HostImport>) {
    |a| == |b| && forall i :: 0 <= i < |a| ==> a[i].host == b[i].host && a[i].found == b[i].found
  }

  lemma AreResolved(taken: set<string>, bare: multiset<string>, finals: multiset<string>,
                    imports: seq<HostImport>, rows: seq<HostImport>)
    requires SameHosts(rows, imports) && bare == BareNames(Offers(imports))
    requires finals == FinalNames(taken, bare, Offers(imports))
    requires forall i :: 0 <= i < |rows| ==> RowIsNamed(taken, bare, finals, rows[i])
    ensures rows == Resolved(taken, imports)
  {
    hide Named, Offers, BareNames, FinalNames;
    forall i | 0 <= i < |rows| ensures rows[i] == Resolved(taken, imports)[i] {
      assert RowIsNamed(taken, bare, finals, rows[i]);
    }
  }

  lemma {:induction false} OffersOfSameHosts(a: seq<HostImport>, b: seq<HostImport>)
    requires SameHosts(a, b)
    ensures Offers(a) == Offers(b)
  {
    if a != [] {
      OffersOfSameHosts(a[..|a| - 1], b[..|b| - 1]);
    }
  }

  lemma OneMoreOffer(before: seq<Offer>, alias: string, ds: seq<Descriptor>, j: nat)
    requires j < |ds|
    ensures var more := before + OffersOf(alias, ds[..j + 1]);
            more[..|more| - 1] == before + OffersOf(alias, ds[..j]) && more[|more| - 1] == Offer(alias, ds[j])
  {
  }

  lemma OneMoreHost(imports: seq<HostImport>, i: nat)
    requires i < |imports|
    ensures Offers(imports[..i + 1]) == Offers(imports[..i]) +
            if imports[i].found.Ok? then OffersOf(Alias(imports[i].host), imports[i].found.value) else []
    ensures imports[i].found.Err? ==> Offers(imports[..i + 1]) == Offers(imports[..i])
  {
    assert imports[..i + 1][..i] == imports[..i];
  }

  method CountBareNames(imports: seq<HostImport>) returns (bare: multiset<string>)
    ensures bare == BareNames(Offers(imports))
  {
    hide BareNames, Offers;
    bare := multiset{};
    assert Offers(imports[..0]) == [] && BareNames([]) == multiset{} by { NothingOffered(); }
    for i := 0 to |imports|
      invariant bare == BareNames(Offers(imports[..i]))
    {
      OneMoreHost(imports, i);
      if imports[i].found.Ok? {
        bare := CountHost(bare, Alias(imports[i].host), imports[i].found.value, Offers(imports[..i]));
      }
    }
    assert imports[..|imports|] == imports;
  }

  lemma NothingOffered()
    ensures Offers([]) == [] && BareNames([]) == multiset{}
  {
  }

  method CountHost(sofar: multiset<string>, alias: string, ds: seq<Descriptor>, ghost before: seq<Offer>)
    returns (bare: multiset<string>)
    requires sofar == BareNames(before)
    ensures bare == BareNames(before + OffersOf(alias, ds))
  {
    bare := sofar;
    assert before + OffersOf(alias, ds[..0]) == before;
    for j := 0 to |ds|
      invariant bare == BareNames(before + OffersOf(alias, ds[..j]))
    {
      OneMoreOffer(before, alias, ds, j);
      bare := bare + multiset{ds[j].name};
    }
    assert ds[..|ds|] == ds;
  }

  method CountFinalNames(taken: set<string>, bare: multiset<string>, imports: seq<HostImport>)
    returns (finals: multiset<string>)
    ensures finals == FinalNames(taken, bare, Offers(imports))
  {
    hide FinalNames, Offers;
    finals := multiset{};
    assert FinalNames(taken, bare, []) == multiset{} && Offers(imports[..0]) == [] by {
      NothingOffered();
      NothingNamed(taken, bare);
    }
    for i := 0 to |imports|
      invariant finals == FinalNames(taken, bare, Offers(imports[..i]))
    {
      OneMoreHost(imports, i);
      if imports[i].found.Ok? {
        finals := CountHostFinal(taken, bare, finals, Alias(imports[i].host), imports[i].found.value, Offers(imports[..i]));
      }
    }
    assert imports[..|imports|] == imports;
  }

  lemma NothingNamed(taken: set<string>, bare: multiset<string>)
    ensures FinalNames(taken, bare, []) == multiset{}
  {
  }

  method CountHostFinal(taken: set<string>, bare: multiset<string>, sofar: multiset<string>,
                        alias: string, ds: seq<Descriptor>, ghost before: seq<Offer>)
    returns (finals: multiset<string>)
    requires sofar == FinalNames(taken, bare, before)
    ensures finals == FinalNames(taken, bare, before + OffersOf(alias, ds))
  {
    hide FinalName;
    finals := sofar;
    assert before + OffersOf(alias, ds[..0]) == before;
    for j := 0 to |ds|
      invariant finals == FinalNames(taken, bare, before + OffersOf(alias, ds[..j]))
    {
      OneMoreOffer(before, alias, ds, j);
      finals := finals + multiset{FinalName(taken, bare, Offer(alias, ds[j]))};
    }
    assert ds[..|ds|] == ds;
  }

  predicate AnyClash(taken: set<string>, bare: multiset<string>, finals: multiset<string>, offers: seq<Offer>) {
    exists k :: 0 <= k < |offers| && Clashes(taken, finals, FinalName(taken, bare, offers[k]))
  }

  lemma AnyClashOfJoin(taken: set<string>, bare: multiset<string>, finals: multiset<string>, a: seq<Offer>, b: seq<Offer>)
    ensures AnyClash(taken, bare, finals, a + b) <==>
            AnyClash(taken, bare, finals, a) || AnyClash(taken, bare, finals, b)
  {
    hide FinalName, Clashes;
    if AnyClash(taken, bare, finals, a) {
      var k :| 0 <= k < |a| && Clashes(taken, finals, FinalName(taken, bare, a[k]));
      assert (a + b)[k] == a[k];
    }
    if AnyClash(taken, bare, finals, b) {
      var k :| 0 <= k < |b| && Clashes(taken, finals, FinalName(taken, bare, b[k]));
      assert (a + b)[|a| + k] == b[k];
    }
  }

  lemma OneMoreBuilt(taken: set<string>, bare: multiset<string>, finals: multiset<string>,
                     alias: string, ds: seq<Descriptor>, j: nat)
    requires j < |ds|
    ensures var o := Offer(alias, ds[j]);
            var name := FinalName(taken, bare, o);
            var sofar, more := OffersOf(alias, ds[..j]), OffersOf(alias, ds[..j + 1]);
            && Named(taken, bare, finals, more) == Named(taken, bare, finals, sofar) +
                 (if Usable(name) && !Clashes(taken, finals, name) && ds[j].builds then [Imported(name, Remote)] else [])
            && (AnyClash(taken, bare, finals, more) <==>
                AnyClash(taken, bare, finals, sofar) || Clashes(taken, finals, name))
  {
    hide FinalName, Clashes, Usable;
    var o := Offer(alias, ds[j]);
    var sofar, more := OffersOf(alias, ds[..j]), OffersOf(alias, ds[..j + 1]);
    assert more[..|more| - 1] == sofar && more == sofar + [o];
    AnyClashOfJoin(taken, bare, finals, sofar, [o]);
    assert [o][0] == o;
  }

  /** A map from each tool's name to it. */
  predicate Indexes(m: map<string, Tool>, tools: seq<Tool>) {
    && m.Keys == NamesIn(tools)
    && (forall n :: n in m ==> m[n] == Imported(n, Remote))
    && forall t :: t in tools ==> t == Imported(t.name, Remote)
  }

  lemma IndexesNothing()
    ensures Indexes(map[], [])
  {
  }

  lemma IndexesOneMore(m: map<string, Tool>, tools: seq<Tool>, name: string)
    requires Indexes(m, tools)
    ensures Indexes(m[name := Imported(name, Remote)], tools + [Imported(name, Remote)])
  {
  }

  /** Builds one host's tools, adding them to those built so far. */
  method BuildHost(taken: set<string>, bare: multiset<string>, finals: multiset<string>,
                   alias: string, ds: seq<Descriptor>, known: map<string, Tool>, ghost before: seq<Tool>)
    returns (tools: seq<Tool>, byName: map<string, Tool>, clash: bool)
    ensures tools == Named(taken, bare, finals, OffersOf(alias, ds))
    requires Indexes(known, before)
    ensures Indexes(byName, before + tools)
    ensures clash <==> AnyClash(taken, bare, finals, OffersOf(alias, ds))
  {
    hide FinalName, Usable, Named, AnyClash, Indexes;
    assert before + [] == before;
    tools, byName, clash := [], known, false;
    NamedOfNone(taken, bare, finals);
    AnyClashOfNone(taken, bare, finals);
    assert OffersOf(alias, ds[..0]) == [];
    for j := 0 to |ds|
      invariant tools == Named(taken, bare, finals, OffersOf(alias, ds[..j]))
      invariant Indexes(byName, before + tools)
      invariant clash <==> AnyClash(taken, bare, finals, OffersOf(alias, ds[..j]))
    {
      OneMoreBuilt(taken, bare, finals, alias, ds, j);
      var name := FinalName(taken, bare, Offer(alias, ds[j]));
      if !Usable(name) {
        continue;
      }
      if name in taken || finals[name] > 1 {
        clash := true;
        continue;
      }
      if ds[j].builds {
        IndexesOneMore(byName, before + tools, name);
        assert before + (tools + [Imported(name, Remote)]) == before + tools + [Imported(name, Remote)];
        byName := byName[name := Imported(name, Remote)];
        tools := tools + [Imported(name, Remote)];
      }
    }
    assert ds[..|ds|] == ds;
  }

  /** Counts bare names, then final names, and only then builds: order decides nothing. */
  method ResolveRemoteTools(taken: set<string>, imports: seq<HostImport>)
    returns (rows: seq<HostImport>, byName: map<string, Tool>, collided: bool)
    ensures rows == Resolved(taken, imports)
    ensures Indexes(byName, AllTools(rows))
    ensures DistinctNames(AllTools(rows)) && NamesIn(AllTools(rows)) !! taken
    ensures var bare := BareNames(Offers(imports));
            collided <==> AnyClash(taken, bare, FinalNames(taken, bare, Offers(imports)), Offers(imports))
  {
    hide FinalName, Clashes, Usable, DistinctNames, AnyClash, Named, Offers, BareNames, FinalNames, Indexes;
    assert Indexes(map[], []) by { IndexesNothing(); }
    NothingOffered();
    var bare := CountBareNames(imports);
    var finals := CountFinalNames(taken, bare, imports);
    rows, byName, collided := [], map[], false;
    AnyClashOfNone(taken, bare, finals);
    for i := 0 to |imports|
      invariant |rows| == i && SameHosts(rows, imports[..i])
      invariant forall k :: 0 <= k < i ==> RowIsNamed(taken, bare, finals, rows[k])
      invariant Indexes(byName, AllTools(rows))
      invariant collided <==> AnyClash(taken, bare, finals, Offers(imports[..i]))
    {
      OneMoreHost(imports, i);
      assert imports[..i + 1][..i] == imports[..i];
      var tools: seq<Tool>, clash := [], false;
      if imports[i].found.Ok? {
        tools, byName, clash := BuildHost(taken, bare, finals, Alias(imports[i].host), imports[i].found.value, byName, AllTools(rows));
        AnyClashOfJoin(taken, bare, finals, Offers(imports[..i]), OffersOf(Alias(imports[i].host), imports[i].found.value));
      }
      ghost var before := rows;
      rows := rows + [imports[i].(tools := tools)];
      assert rows[..i] == before && AllTools(rows) == AllTools(before) + tools;
      assert AllTools(before) + [] == AllTools(before);
      collided := collided || clash;
    }
    assert imports[..|imports|] == imports;
    AreResolved(taken, bare, finals, imports, rows);
    OffersOfSameHosts(rows, imports);
    RowsJoinUp(taken, bare, finals, rows);
    NamedAreDistinct(taken, bare, finals, Offers(imports));
  }

  lemma AnyClashOfNone(taken: set<string>, bare: multiset<string>, finals: multiset<string>)
    ensures !AnyClash(taken, bare, finals, [])
  {
  }

  /** The import fails on the first host that did not answer, else on a clash; it resolves either way. */
  method ImportHosts(taken: set<string>, imports: seq<HostImport>)
    returns (rows: seq<HostImport>, byName: map<string, Tool>, failure: Option<Failure>)
    ensures rows == Resolved(taken, imports)
    ensures Indexes(byName, AllTools(rows))
    ensures DistinctNames(AllTools(rows)) && NamesIn(AllTools(rows)) !! taken
    ensures var bare := BareNames(Offers(imports));
            failure.None? <==> (forall i :: 0 <= i < |imports| ==> imports[i].found.Ok?) &&
                               !AnyClash(taken, bare, FinalNames(taken, bare, Offers(imports)), Offers(imports))
    ensures failure.Some? && failure.value.Undiscovered? ==>
            exists i :: 0 <= i < |imports| && imports[i].found.Err? && (forall k :: 0 <= k < i ==> imports[k].found.Ok?) &&
                        failure.value == Undiscovered(imports[i].host.name, imports[i].found.error)
  {
    hide AnyClash, DistinctNames, Indexes;
    failure := None;
    var i := 0;
    while i < |imports| && failure.None?
      decreases |imports| - i, failure.None?
      invariant 0 <= i <= |imports|
      invariant failure.None? ==> forall k :: 0 <= k < i ==> imports[k].found.Ok?
      invariant failure.Some? ==>
        exists k :: 0 <= k < |imports| && imports[k].found.Err? && (forall m :: 0 <= m < k ==> imports[m].found.Ok?) &&
                    failure.value == Undiscovered(imports[k].host.name, imports[k].found.error)
    {
      if imports[i].found.Err? {
        failure := Some(Undiscovered(imports[i].host.name, imports[i].found.error));
      } else {
        i := i + 1;
      }
    }
    var collided;
    rows, byName, collided := ResolveRemoteTools(taken, imports);
    if failure.None? && collided {
      failure := Some(Collided);
    }
  }

  // ----- the order hosts are discovered in

  lemma NamesOfOneMore(taken: set<string>, bare: multiset<string>, offers: seq<Offer>, o: Offer)
    ensures BareNames(offers + [o]) == BareNames(offers) + multiset{o.descriptor.name}
    ensures FinalNames(taken, bare, offers + [o]) == FinalNames(taken, bare, offers) + multiset{FinalName(taken, bare, o)}
    ensures BareNames([]) == multiset{} == FinalNames(taken, bare, [])
  {
    hide FinalName;
    assert (offers + [o])[..|offers|] == offers;
  }

  lemma {:induction false} NamesOfJoin(taken: set<string>, bare: multiset<string>, a: seq<Offer>, b: seq<Offer>)
    ensures BareNames(a + b) == BareNames(a) + BareNames(b)
    ensures FinalNames(taken, bare, a + b) == FinalNames(taken, bare, a) + FinalNames(taken, bare, b)
  {
    hide FinalName, BareNames, FinalNames;
    if b == [] {
      assert a + b == a;
      NamesOfOneMore(taken, bare, [], Offer("", Descriptor("", false)));
    } else {
      var front, o := b[..|b| - 1], b[|b| - 1];
      NamesOfJoin(taken, bare, a, front);
      NamesOfOneMore(taken, bare, a + front, o);
      NamesOfOneMore(taken, bare, front, o);
      assert a + b == (a + front) + [o] && b == front + [o];
    }
  }

  /** Taking one offer out takes out its bare name and its final name, wherever it stood. */
  lemma NamesWithout(taken: set<string>, bare: multiset<string>, offers: seq<Offer>, k: nat)
    requires k < |offers|
    ensures var rest := offers[..k] + offers[k + 1..];
            && BareNames(offers) == BareNames(rest) + multiset{offers[k].descriptor.name}
            && FinalNames(taken, bare, offers) ==
               FinalNames(taken, bare, rest) + multiset{FinalName(taken, bare, offers[k])}
  {
    hide FinalName, BareNames, FinalNames;
    assert offers == (offers[..k] + [offers[k]]) + offers[k + 1..];
    NamesOfJoin(taken, bare, offers[..k] + [offers[k]], offers[k + 1..]);
    NamesOfJoin(taken, bare, offers[..k], [offers[k]]);
    NamesOfJoin(taken, bare, offers[..k], offers[k + 1..]);
    NamesOfOneMore(taken, bare, [], offers[k]);
    assert [] + [offers[k]] == [offers[k]];
  }

  lemma WithoutLast(a: seq<Offer>, b: seq<Offer>) returns (k: nat)
    requires multiset(a) == multiset(b) && a != []
    ensures k < |b| && b[k] == a[|a| - 1] && multiset(a[..|a| - 1]) == multiset(b[..k] + b[k + 1..])
  {
    var n := |a| - 1;
    assert a == a[..n] + [a[n]];
    assert a[n] in multiset(b);
    k :| 0 <= k < |b| && b[k] == a[n];
    assert b == b[..k] + [b[k]] + b[k + 1..];
    assert multiset(a[..n]) == multiset(a) - multiset{a[n]};
    assert multiset(b[..k] + b[k + 1..]) == multiset(b) - multiset{a[n]};
  }

  /** Both counts are the same however the offers are ordered, so every offer keeps its name and its fate. */
  lemma {:induction false} NamingIgnoresOrder(taken: set<string>, bare: multiset<string>, a: seq<Offer>, b: seq<Offer>)
    requires multiset(a) == multiset(b)
    ensures BareNames(a) == BareNames(b) && FinalNames(taken, bare, a) == FinalNames(taken, bare, b)
    decreases |a|
  {
    hide FinalName;
    if a == [] {
      assert |multiset(b)| == 0;
    } else {
      var n := |a| - 1;
      var k := WithoutLast(a, b);
      var rest := b[..k] + b[k + 1..];
      NamingIgnoresOrder(taken, bare, a[..n], rest);
      NamesWithout(taken, bare, b, k);
      NamesWithout(taken, bare, a, n);
      assert a[..n] + a[n + 1..] == a[..n];
    }
  }
}

/** What the remote import comes to, told from what each host offered. */
module RemoteReports {
  import opened Wrappers
  import opened Toolkit
  import opened RemoteTools

  /** The host answered, and this is one of the tools it offers. */
  predicate Offered(imports: seq<HostImport>, i: nat, j: nat) {
    i < |imports| && imports[i].found.Ok? && j < |imports[i].found.value|
  }

  /** Some other offer, of this host or of another, is of the same name. */
  ghost predicate OfferedTwice(imports: seq<HostImport>, i: nat, j: nat)
    requires Offered(imports, i, j)
  {
    exists x: nat, y: nat :: Offered(imports, x, y) && (x != i || y != j) &&
                             imports[x].found.value[y].name == imports[i].found.value[j].name
  }

  /** The name the model would call an offer by. */
  ghost function CalledBy(taken: set<string>, imports: seq<HostImport>, i: nat, j: nat): string
    requires Offered(imports, i, j)
  {
    var host, name := imports[i].host, imports[i].found.value[j].name;
    if name in taken || OfferedTwice(imports, i, j)
    then (if host.alias != "" then host.alias else host.name) + "_" + name
    else name
  }

  /** Nobody else goes by the name of an offer. */
  ghost predicate Alone(taken: set<string>, imports: seq<HostImport>, i: nat, j: nat)
    requires Offered(imports, i, j)
  {
    && CalledBy(taken, imports, i, j) !in taken
    && forall x: nat, y: nat :: Offered(imports, x, y) && (x != i || y != j) ==>
         CalledBy(taken, imports, x, y) != CalledBy(taken, imports, i, j)
  }

  // ----- offers by their place

  function At(imports: seq<HostImport>, i: nat, j: nat): nat
    requires i <= |imports|
  {
    |Offers(imports[..i])| + j
  }

  lemma {:induction false} OffersInPart(imports: seq<HostImport>, i: nat)
    requires i <= |imports|
    ensures Offers(imports[..i]) <= Offers(imports)
  {
    if i < |imports| {
      OffersInPart(imports[..|imports| - 1], i);
      assert imports[..|imports| - 1][..i] == imports[..i];
    } else {
      assert imports[..i] == imports;
    }
  }

  lemma OfferStands(imports: seq<HostImport>, i: nat, j: nat)
    requires Offered(imports, i, j)
    ensures At(imports, i, j) < |Offers(imports[..i + 1])| <= |Offers(imports)|
    ensures Offers(imports)[At(imports, i, j)] == Offer(Alias(imports[i].host), imports[i].found.value[j])
  {
    hide Offers;
    OneMoreHost(imports, i);
    OffersInPart(imports, i + 1);
    var upto := Offers(imports[..i + 1]);
    assert upto[At(imports, i, j)] == Offer(Alias(imports[i].host), imports[i].found.value[j]);
  }

  lemma {:induction false} OfferIsSomeones(imports: seq<HostImport>, k: nat) returns (i: nat, j: nat)
    requires k < |Offers(imports)|
    ensures Offered(imports, i, j) && At(imports, i, j) == k
  {
    var n := |imports| - 1;
    OneMoreHost(imports, n);
    assert imports[..n + 1] == imports;
    if k < |Offers(imports[..n])| {
      i, j := OfferIsSomeones(imports[..n], k);
      assert imports[..n][..i] == imports[..i];
    } else {
      i, j := n, k - |Offers(imports[..n])|;
    }
  }

  lemma PlacesDiffer(imports: seq<HostImport>, i: nat, j: nat, x: nat, y: nat)
    requires Offered(imports, i, j) && Offered(imports, x, y) && (x != i || y != j)
    ensures At(imports, i, j) != At(imports, x, y)
  {
    hide Offers;
    if i != x {
      var (a, b, c) := if i < x then (i, j, x) else (x, y, i);
      OfferStands(imports, a, b);
      OffersInPart(imports[..c], a + 1);
      assert imports[..c][..a + 1] == imports[..a + 1];
    }
  }

  // ----- the two counts

  function NamesByPlace(offers: seq<Offer>): (r: seq<string>)
    ensures |r| == |offers| && forall k :: 0 <= k < |r| ==> r[k] == offers[k].descriptor.name
  {
    seq(|offers|, k requires 0 <= k < |offers| => offers[k].descriptor.name)
  }

  function FinalsByPlace(taken: set<string>, bare: multiset<string>, offers: seq<Offer>): (r: seq<string>)
    ensures |r| == |offers| && forall k :: 0 <= k < |r| ==> r[k] == FinalName(taken, bare, offers[k])
  {
    seq(|offers|, k requires 0 <= k < |offers| => FinalName(taken, bare, offers[k]))
  }

  lemma {:induction false} BareByPlace(offers: seq<Offer>)
    ensures BareNames(offers) == multiset(NamesByPlace(offers))
  {
    if offers != [] {
      var front, o := offers[..|offers| - 1], offers[|offers| - 1];
      BareByPlace(front);
      assert NamesByPlace(offers) == NamesByPlace(front) + [o.descriptor.name];
    }
  }

  lemma {:induction false} FinalByPlace(taken: set<string>, bare: multiset<string>, offers: seq<Offer>)
    ensures FinalNames(taken, bare, offers) == multiset(FinalsByPlace(taken, bare, offers))
  {
    hide FinalName;
    if offers != [] {
      var front, o := offers[..|offers| - 1], offers[|offers| - 1];
      FinalByPlace(taken, bare, front);
      assert FinalsByPlace(taken, bare, offers) == FinalsByPlace(taken, bare, front) + [FinalName(taken, bare, o)];
    }
  }

  lemma CountedTwice(s: seq<string>, k: nat)
    requires k < |s|
    ensures multiset(s)[s[k]] > 1 <==> exists m :: 0 <= m < |s| && m != k && s[m] == s[k]
  {
    if multiset(s)[s[k]] > 1 {
      var i, j := CountedIsTwice(s, s[k]);
      assert i != k || j != k;
    }
    if m :| 0 <= m < |s| && m != k && s[m] == s[k] {
      if m < k {
        TwiceIsCounted(s, m, k);
      } else {
        TwiceIsCounted(s, k, m);
      }
    }
  }

  lemma OfferIsCalled(taken: set<string>, imports: seq<HostImport>, i: nat, j: nat)
    requires Offered(imports, i, j)
    ensures var o := Offer(Alias(imports[i].host), imports[i].found.value[j]);
            FinalName(taken, BareNames(Offers(imports)), o) == CalledBy(taken, imports, i, j)
  {
    hide Offers, At, BareNames;
    var offers := Offers(imports);
    var names := NamesByPlace(offers);
    BareByPlace(offers);
    OfferStands(imports, i, j);
    var k := At(imports, i, j);
    CountedTwice(names, k);
    if m :| 0 <= m < |names| && m != k && names[m] == names[k] {
      var x, y := OfferIsSomeones(imports, m);
      OfferStands(imports, x, y);
      assert OfferedTwice(imports, i, j);
    }
    if x: nat, y: nat :| Offered(imports, x, y) && (x != i || y != j) &&
                         imports[x].found.value[y].name == imports[i].found.value[j].name {
      PlacesDiffer(imports, i, j, x, y);
      OfferStands(imports, x, y);
      assert names[At(imports, x, y)] == names[k];
    }
  }

  lemma OfferIsAlone(taken: set<string>, imports: seq<HostImport>, i: nat, j: nat)
    requires Offered(imports, i, j)
    ensures var bare := BareNames(Offers(imports));
            var finals := FinalNames(taken, bare, Offers(imports));
            var name := CalledBy(taken, imports, i, j);
            Alone(taken, imports, i, j) <==> name !in taken && finals[name] <= 1
  {
    hide Offers, At, BareNames, FinalNames, FinalName, CalledBy;
    var offers := Offers(imports);
    var bare := BareNames(offers);
    var names := FinalsByPlace(taken, bare, offers);
    FinalByPlace(taken, bare, offers);
    OfferStands(imports, i, j);
    OfferIsCalled(taken, imports, i, j);
    var k := At(imports, i, j);
    CountedTwice(names, k);
    if m :| 0 <= m < |names| && m != k && names[m] == names[k] {
      var x, y := OfferIsSomeones(imports, m);
      OfferStands(imports, x, y);
      OfferIsCalled(taken, imports, x, y);
    }
    if x: nat, y: nat :| Offered(imports, x, y) && (x != i || y != j) &&
                         CalledBy(taken, imports, x, y) == CalledBy(taken, imports, i, j) {
      PlacesDiffer(imports, i, j, x, y);
      OfferStands(imports, x, y);
      OfferIsCalled(taken, imports, x, y);
      assert names[At(imports, x, y)] == names[k];
    }
  }

  // ----- what comes of the offers

  lemma {:induction false} NamedAre(taken: set<string>, bare: multiset<string>, finals: multiset<string>,
                                    offers: seq<Offer>, t: Tool)
    ensures t in Named(taken, bare, finals, offers) <==>
            exists k :: 0 <= k < |offers| && offers[k].descriptor.builds &&
                        Usable(FinalName(taken, bare, offers[k])) &&
                        !Clashes(taken, finals, FinalName(taken, bare, offers[k])) &&
                        t == Imported(FinalName(taken, bare, offers[k]), Remote)
  {
    hide FinalName, Usable, Clashes;
    if offers != [] {
      NamedAre(taken, bare, finals, offers[..|offers| - 1], t);
    }
  }

  /**
    A host's row holds just the tools it offered that can be built, that have a usable name,
    and that nobody else goes by the name of: one held here or offered twice is prefixed.
   */
  lemma RowsHoldWhatIsOffered(taken: set<string>, imports: seq<HostImport>, i: nat, t: Tool)
    requires i < |imports|
    ensures t in Resolved(taken, imports)[i].tools <==>
            exists j: nat :: Offered(imports, i, j) && imports[i].found.value[j].builds && Alone(taken, imports, i, j) &&
                             WellNamed(t.name) && t.name == CalledBy(taken, imports, i, j) &&
                             t == Tool(t.name, {}, t.name, Some(Remote), false, false)
  {
    hide Offers, BareNames, FinalNames, FinalName, Usable, WellNamed, Alone, CalledBy, Named;
    var bare := BareNames(Offers(imports));
    var finals := FinalNames(taken, bare, Offers(imports));
    UsableIsWellNamed(t.name);
    if imports[i].found.Ok? {
      var offers := OffersOf(Alias(imports[i].host), imports[i].found.value);
      NamedAre(taken, bare, finals, offers, t);
      forall j: nat | j < |offers|
        ensures FinalName(taken, bare, offers[j]) == CalledBy(taken, imports, i, j)
        ensures Alone(taken, imports, i, j) <==>
                CalledBy(taken, imports, i, j) !in taken && finals[CalledBy(taken, imports, i, j)] <= 1
      {
        OfferIsCalled(taken, imports, i, j);
        OfferIsAlone(taken, imports, i, j);
      }
    }
  }

  /** And the import reports a clash exactly when a usable name is not one offer's alone. */
  lemma ClashIsReported(taken: set<string>, imports: seq<HostImport>)
    ensures var bare := BareNames(Offers(imports));
            AnyClash(taken, bare, FinalNames(taken, bare, Offers(imports)), Offers(imports)) <==>
            exists i: nat, j: nat :: Offered(imports, i, j) && WellNamed(CalledBy(taken, imports, i, j)) &&
                                     !Alone(taken, imports, i, j)
  {
    hide Offers, BareNames, FinalNames, FinalName, Usable, WellNamed, Alone, CalledBy, At;
    var offers := Offers(imports);
    var bare := BareNames(offers);
    var finals := FinalNames(taken, bare, offers);
    if k :| 0 <= k < |offers| && Clashes(taken, finals, FinalName(taken, bare, offers[k])) {
      var i, j := OfferIsSomeones(imports, k);
      OfferStands(imports, i, j);
      OfferIsCalled(taken, imports, i, j);
      OfferIsAlone(taken, imports, i, j);
      UsableIsWellNamed(CalledBy(taken, imports, i, j));
    }
    if i: nat, j: nat :| Offered(imports, i, j) && WellNamed(CalledBy(taken, imports, i, j)) && !Alone(taken, imports, i, j) {
      OfferStands(imports, i, j);
      OfferIsCalled(taken, imports, i, j);
      OfferIsAlone(taken, imports, i, j);
      UsableIsWellNamed(CalledBy(taken, imports, i, j));
      assert Clashes(taken, finals, FinalName(taken, bare, offers[At(imports, i, j)]));
    }
  }
}

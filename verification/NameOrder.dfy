/** Names sorted the way a list of strings is. */
module NameOrder {
  predicate Less(a: string, b: string) {
    b != "" && (a == "" || a[0] < b[0] || (a[0] == b[0] && Less(a[1..], b[1..])))
  }

  /** A name sorts by the first character it differs in; one that ends there comes first. */
  lemma {:induction false} LessAtTheFirstDifference(a: string, b: string)
    ensures Less(a, b) <==>
            exists k :: 0 <= k <= |a| && k < |b| && a[..k] == b[..k] && (k == |a| || a[k] < b[k])
  {
    if a != "" && b != "" && a[0] == b[0] {
      LessAtTheFirstDifference(a[1..], b[1..]);
      if k :| 0 <= k <= |a[1..]| && k < |b[1..]| && a[1..][..k] == b[1..][..k] && (k == |a[1..]| || a[1..][k] < b[1..][k]) {
        assert a[..k + 1] == [a[0]] + a[1..][..k] && b[..k + 1] == [b[0]] + b[1..][..k];
      }
      if k :| 0 <= k <= |a| && k < |b| && a[..k] == b[..k] && (k == |a| || a[k] < b[k]) {
        assert k > 0;
        assert a[1..][..k - 1] == a[..k][1..] && b[1..][..k - 1] == b[..k][1..];
      }
    } else if b != "" {
      assert a[..0] == b[..0];
      if k :| 0 <= k <= |a| && k < |b| && a[..k] == b[..k] && (k == |a| || a[k] < b[k]) && a != "" {
        assert k > 0 ==> a[..k][0] == b[..k][0];
      }
    }
  }

  lemma {:induction false} LessIsTotal(a: string, b: string)
    ensures a == b || Less(a, b) || Less(b, a)
    ensures !(Less(a, b) && Less(b, a)) && !Less(a, a)
  {
    if a != "" {
      LessIsTotal(a[1..], a[1..]);
      if b != "" && a[0] == b[0] {
        LessIsTotal(a[1..], b[1..]);
        assert a == [a[0]] + a[1..] && b == [b[0]] + b[1..];
      }
    }
  }

  lemma {:induction false} LessIsTransitive(a: string, b: string, c: string)
    requires Less(a, b) && Less(b, c)
    ensures Less(a, c)
  {
    if a != "" && a[0] == b[0] && b[0] == c[0] {
      LessIsTransitive(a[1..], b[1..], c[1..]);
    }
  }

  predicate Least(names: set<string>, n: string) {
    n in names && forall m :: m in names ==> m == n || Less(n, m)
  }

  lemma {:induction false} LeastExists(names: set<string>) returns (n: string)
    requires names != {}
    ensures Least(names, n)
    decreases names
  {
    hide Less;
    n :| n in names;
    if names != {n} {
      var k := LeastExists(names - {n});
      LessIsTotal(n, k);
      if Less(k, n) {
        n := k;
      } else {
        forall m | m in names ensures m == n || Less(n, m) {
          if m != n && m != k {
            LessIsTransitive(n, k, m);
          }
        }
      }
    }
  }

  predicate Ascending(s: seq<string>) {
    forall i, j :: 0 <= i < j < |s| ==> Less(s[i], s[j])
  }

  method SortNames(names: set<string>) returns (s: seq<string>)
    ensures Ascending(s) && forall n :: n in s <==> n in names
  {
    hide Less;
    s := [];
    var rest := names;
    while rest != {}
      invariant rest <= names && forall n :: n in s <==> n in names - rest
      invariant Ascending(s) && forall i, m :: 0 <= i < |s| && m in rest ==> Less(s[i], m)
      decreases rest
    {
      ghost var k := LeastExists(rest);
      var n :| n in rest && Least(rest, n);
      assert Least(rest, n);
      s := s + [n];
      forall m | m in rest - {n} ensures Less(n, m) {
        assert m in rest;
      }
      rest := rest - {n};
    }
  }

  /** A set of names has one ascending order. */
  lemma {:induction false} AscendingIsUnique(a: seq<string>, b: seq<string>)
    requires Ascending(a) && Ascending(b) && forall n :: n in a <==> n in b
    ensures a == b
  {
    hide Less;
    assert b == [] || b[0] in a;
    if a != [] {
      assert a[0] in b;
      FirstIsLeast(a, b);
      assert a == [a[0]] + a[1..] && b == [b[0]] + b[1..];
      LessIsTotal(a[0], a[0]);
      assert forall n :: n in a[1..] ==> Less(a[0], n) && n in b;
      assert forall n :: n in b[1..] ==> Less(b[0], n) && n in a;
      AscendingIsUnique(a[1..], b[1..]);
    }
  }

  lemma FirstIsLeast(a: seq<string>, b: seq<string>)
    requires Ascending(a) && Ascending(b) && a != [] && b != [] && forall n :: n in a <==> n in b
    ensures a[0] == b[0]
  {
    hide Less;
    assert a[0] in b && b[0] in a;
    var i :| 0 <= i < |b| && b[i] == a[0];
    var j :| 0 <= j < |a| && a[j] == b[0];
    LessIsTotal(a[0], b[0]);
  }
}

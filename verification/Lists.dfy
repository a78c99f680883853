/**
  The list normalisers Prepare runs: each entry cleaned, empties dropped, duplicates
  dropped after the first.
 */
module Lists {
  import opened Text

  function TrimLeft(s: string): (r: string)
    ensures r != "" ==> !IsSpace(r[0])
    ensures |r| <= |s| && (s != "" && IsSpace(s[0]) ==> |r| < |s|)
  {
    if s != "" && IsSpace(s[0]) then TrimLeft(s[1..]) else s
  }

  lemma {:induction false} SpaceInFront(s: string)
    ensures TrimLeft(s) == s[|s| - |TrimLeft(s)|..]
    ensures forall i :: 0 <= i < |s| - |TrimLeft(s)| ==> IsSpace(s[i])
  {
    hide IsSpace;
    if s != "" && IsSpace(s[0]) {
      SpaceInFront(s[1..]);
      assert forall i :: 0 < i < |s| ==> s[i] == s[1..][i - 1];
    }
  }

  function TrimRight(s: string): (r: string)
    ensures r <= s && (r != "" ==> !IsSpace(r[|r| - 1]))
    ensures s != "" && !IsSpace(s[|s| - 1]) ==> r == s
    ensures forall i :: |r| <= i < |s| ==> IsSpace(s[i])
  {
    if s != "" && IsSpace(s[|s| - 1]) then TrimRight(s[..|s| - 1]) else s
  }

  predicate Trimmed(s: string) {
    s != "" ==> !IsSpace(s[0]) && !IsSpace(s[|s| - 1])
  }

  function TrimSpace(s: string): (r: string)
    ensures Trimmed(r)
    ensures Trimmed(s) ==> r == s
    ensures |r| <= |s| && (s != "" && IsSpace(s[0]) ==> |r| < |s|)
  {
    var left := TrimLeft(s);
    var r := TrimRight(left);
    assert r != "" ==> r[0] == left[0];
    r
  }

  function TrimDashes(s: string): (r: string)
    ensures r != "" ==> r[0] != '-'
    ensures s != "" && s[0] != '-' ==> r == s
    ensures |r| <= |s| && r == s[|s| - |r|..] && forall i :: 0 <= i < |s| - |r| ==> s[i] == '-'
  {
    if s != "" && s[0] == '-' then TrimDashes(s[1..]) else s
  }

  /** A flag name as an operator may have typed it, without its leading dashes. */
  function FlagName(s: string): (r: string)
    ensures r != "" ==> r[0] != '-' && !IsSpace(r[|r| - 1])
  {
    TrimDashes(TrimSpace(s))
  }

  /** What stands at a..b of a text, all around it being white space, and none of it at its ends. */
  predicate SpaceAround(s: string, a: nat, b: nat) {
    && a <= b <= |s| && Trimmed(s[a..b])
    && (forall i :: 0 <= i < a ==> IsSpace(s[i])) && forall i :: b <= i < |s| ==> IsSpace(s[i])
  }

  /** What stands at d..b once the dashes from a on are passed. */
  predicate DashesBefore(s: string, a: nat, d: nat, b: nat) {
    a <= d <= b <= |s| && (d < b ==> s[d] != '-') && forall i :: a <= i < d ==> s[i] == '-'
  }

  /** What cleaning takes off an entry: white space around it, and then the dashes in front. */
  lemma CleaningTakesOff(s: string) returns (a: nat, d: nat, b: nat)
    ensures SpaceAround(s, a, b) && TrimSpace(s) == s[a..b]
    ensures DashesBefore(s, a, d, b) && FlagName(s) == s[d..b]
  {
    hide IsSpace, TrimSpace, SpaceAround;
    a, b := SpaceTakenOff(s);
    assert a <= b <= |s| by { SpaceAroundBounds(s, a, b); }
    var f := TrimDashes(s[a..b]);
    d := b - |f|;
    forall i | a <= i < d ensures s[i] == '-' {
      assert s[a..b][i - a] == '-';
    }
  }

  lemma SpaceAroundBounds(s: string, a: nat, b: nat)
    requires SpaceAround(s, a, b)
    ensures a <= b <= |s|
  {
  }

  lemma SpaceTakenOff(s: string) returns (a: nat, b: nat)
    ensures SpaceAround(s, a, b) && TrimSpace(s) == s[a..b]
  {
    hide IsSpace, Trimmed, TrimLeft, TrimRight;
    var left := TrimLeft(s);
    a := |s| - |left|;
    b := a + |TrimRight(left)|;
    SpaceInFront(s);
    assert TrimSpace(s) == s[a..b];
    forall i | b <= i < |s| ensures IsSpace(s[i]) {
      assert IsSpace(left[i - a]);
    }
  }

  /** Cleaned entries, first seen first; empties and later duplicates dropped. */
  function Normalized(names: seq<string>, clean: string -> string): seq<string> {
    if names == [] then []
    else
      var before := Normalized(names[..|names| - 1], clean);
      var name := clean(names[|names| - 1]);
      if name == "" || name in before then before else before + [name]
  }

  method NormalizeTags(tags: seq<string>) returns (out: seq<string>)
    ensures out == Normalized(tags, TrimSpace)
  {
    if |tags| == 0 {
      return tags;
    }
    var seen: set<string> := {};
    out := [];
    for i := 0 to |tags|
      invariant out == Normalized(tags[..i], TrimSpace)
      invariant forall s :: s in seen <==> s in out
    {
      assert tags[..i + 1][..i] == tags[..i];
      var tag := TrimSpace(tags[i]);
      if tag == "" || tag in seen {
        continue;
      }
      seen := seen + {tag};
      out := out + [tag];
    }
    assert tags[..|tags|] == tags;
  }

  method NormalizeGlobalFlags(names: seq<string>) returns (out: seq<string>)
    ensures out == Normalized(names, FlagName)
  {
    if |names| == 0 {
      return names;
    }
    var seen: set<string> := {};
    out := [];
    for i := 0 to |names|
      invariant out == Normalized(names[..i], FlagName)
      invariant forall s :: s in seen <==> s in out
    {
      assert names[..i + 1][..i] == names[..i];
      var name := FlagName(names[i]);
      if name == "" || name in seen {
        continue;
      }
      seen := seen + {name};
      out := out + [name];
    }
    assert names[..|names|] == names;
  }

  // ----- what a normalised list is

  predicate Distinct(out: seq<string>) {
    forall i, j :: 0 <= i < j < |out| ==> out[i] != out[j]
  }

  /** The first entry that cleans to a name. */
  predicate FirstAt(names: seq<string>, clean: string -> string, name: string, p: int) {
    0 <= p < |names| && clean(names[p]) == name && forall q :: 0 <= q < p ==> clean(names[q]) != name
  }

  ghost predicate FirstSeenOrder(names: seq<string>, clean: string -> string, out: seq<string>) {
    forall i, j, p, q :: 0 <= i < j < |out| && FirstAt(names, clean, out[i], p) && FirstAt(names, clean, out[j], q) ==> p < q
  }

  /**
    The result is what the entries clean to and nothing else, each once, in the order first
    seen, and never empty.
   */
  lemma {:induction false} NormalizedIs(names: seq<string>, clean: string -> string)
    ensures var out := Normalized(names, clean);
            && Distinct(out) && "" !in out
            && (forall i :: 0 <= i < |names| ==> clean(names[i]) == "" || clean(names[i]) in out)
            && (forall name :: name in out ==> exists p :: FirstAt(names, clean, name, p))
  {
    if names != [] {
      var last := |names| - 1;
      var before := names[..last];
      NormalizedIs(before, clean);
      var out := Normalized(names, clean);
      forall name | name in out ensures exists p :: FirstAt(names, clean, name, p) {
        if name in Normalized(before, clean) {
          var p :| FirstAt(before, clean, name, p);
          assert FirstAt(names, clean, name, p);
        } else {
          forall q | 0 <= q < last ensures clean(names[q]) != name {
            assert clean(before[q]) == "" || clean(before[q]) in Normalized(before, clean);
          }
          assert FirstAt(names, clean, name, last);
        }
      }
    }
  }

  lemma FirstIsOne(names: seq<string>, clean: string -> string, name: string, p: int, q: int)
    requires FirstAt(names, clean, name, p) && FirstAt(names, clean, name, q)
    ensures p == q
  {
  }

  lemma {:induction false} NormalizedKeepsOrder(names: seq<string>, clean: string -> string)
    ensures FirstSeenOrder(names, clean, Normalized(names, clean))
  {
    if names != [] {
      var last := |names| - 1;
      var before := names[..last];
      NormalizedKeepsOrder(before, clean);
      NormalizedIs(before, clean);
      var kept, out := Normalized(before, clean), Normalized(names, clean);
      forall i, j, p, q | 0 <= i < j < |out| && FirstAt(names, clean, out[i], p) && FirstAt(names, clean, out[j], q)
        ensures p < q
      {
        assert out[i] == kept[i] && FirstAt(before, clean, kept[i], p) by {
          SeenFirstBefore(names, clean, kept[i], p);
        }
        if j < |kept| {
          assert out[j] == kept[j] && FirstAt(before, clean, kept[j], q) by {
            SeenFirstBefore(names, clean, kept[j], q);
          }
        } else {
          NotSeenBefore(names, clean, out[j], q);
        }
      }
    }
  }

  /** What was kept of the names before the last was first seen among them. */
  lemma SeenFirstBefore(names: seq<string>, clean: string -> string, name: string, p: int)
    requires names != [] && name in Normalized(names[..|names| - 1], clean) && FirstAt(names, clean, name, p)
    ensures FirstAt(names[..|names| - 1], clean, name, p)
  {
    var before := names[..|names| - 1];
    NormalizedIs(before, clean);
    var r :| FirstAt(before, clean, name, r);
    assert FirstAt(names, clean, name, r);
    FirstIsOne(names, clean, name, p, r);
  }

  lemma NotSeenBefore(names: seq<string>, clean: string -> string, name: string, q: int)
    requires names != [] && name != "" && name !in Normalized(names[..|names| - 1], clean) && FirstAt(names, clean, name, q)
    ensures q == |names| - 1
  {
    var last := |names| - 1;
    var before := names[..last];
    NormalizedIs(before, clean);
    assert forall k :: 0 <= k < last ==> before[k] == names[k];
  }

  lemma {:induction false} CleanListStays(out: seq<string>, clean: string -> string)
    requires Distinct(out) && forall i :: 0 <= i < |out| ==> out[i] != "" && clean(out[i]) == out[i]
    ensures Normalized(out, clean) == out
  {
    if out != [] {
      CleanListStays(out[..|out| - 1], clean);
    }
  }

  /** Normalising the tags twice is normalising them once. */
  lemma TagsTwice(tags: seq<string>)
    ensures Normalized(Normalized(tags, TrimSpace), TrimSpace) == Normalized(tags, TrimSpace)
  {
    hide Normalized, IsSpace, TrimSpace;
    var out := Normalized(tags, TrimSpace);
    NormalizedIs(tags, TrimSpace);
    forall i | 0 <= i < |out| ensures out[i] != "" && TrimSpace(out[i]) == out[i] {
      assert out[i] in out;
      var p :| FirstAt(tags, TrimSpace, out[i], p);
      assert Trimmed(TrimSpace(tags[p]));
    }
    CleanListStays(out, TrimSpace);
  }

  lemma {:induction false} NormalizedShorter(names: seq<string>, clean: string -> string)
    ensures |Normalized(names, clean)| <= |names|
    ensures |Normalized(names, clean)| == |names| ==>
              forall i :: 0 <= i < |names| ==> Normalized(names, clean)[i] == clean(names[i])
  {
    if names != [] {
      NormalizedShorter(names[..|names| - 1], clean);
    }
  }

  /** A flag whose name, behind its dashes, begins with white space. */
  predicate SpaceBehindDashes(name: string) {
    FlagName(name) != "" && IsSpace(FlagName(name)[0])
  }

  lemma SpaceIsTrimmedAgain(r: string)
    requires r != "" && r[0] != '-' && !IsSpace(r[|r| - 1])
    ensures FlagName(r) == r <==> !IsSpace(r[0])
  {
    hide IsSpace;
    if !IsSpace(r[0]) {
      assert Trimmed(r);
    }
  }

  /**
    Prepare is said to be safe to call twice. For the global flags it is exactly when no
    entry has white space right behind its leading dashes.
   */
  lemma FlagsTwice(names: seq<string>)
    ensures Normalized(Normalized(names, FlagName), FlagName) == Normalized(names, FlagName) <==>
            forall i :: 0 <= i < |names| ==> !SpaceBehindDashes(names[i])
  {
    hide Normalized, IsSpace, FlagName;
    var out := Normalized(names, FlagName);
    NormalizedIs(names, FlagName);
    if forall i :: 0 <= i < |names| ==> !SpaceBehindDashes(names[i]) {
      forall i | 0 <= i < |out| ensures out[i] != "" && FlagName(out[i]) == out[i] {
        assert out[i] in out;
        var p :| FirstAt(names, FlagName, out[i], p);
        assert !SpaceBehindDashes(names[p]);
        SpaceIsTrimmedAgain(out[i]);
      }
      CleanListStays(out, FlagName);
    } else {
      var i :| 0 <= i < |names| && SpaceBehindDashes(names[i]);
      var r := FlagName(names[i]);
      assert r in out;
      var k :| 0 <= k < |out| && out[k] == r;
      SpaceIsTrimmedAgain(r);
      NormalizedShorter(out, FlagName);
    }
  }

  /** "-- foo" is such an entry: it keeps its space the first time and loses it the second. */
  lemma DashesThenSpace()
    ensures FlagName("-- foo") == " foo" && FlagName(" foo") == "foo" && SpaceBehindDashes("-- foo")
  {
    hide FlagName;
    DashesGo();
    SpaceGoes();
  }

  lemma TwoDashesLess(rest: string)
    requires rest != "" && rest[0] != '-'
    ensures TrimDashes("--" + rest) == rest
  {
    assert ("--" + rest)[1..] == "-" + rest && ("-" + rest)[1..] == rest;
  }

  lemma DashesAreKept(rest: string)
    requires rest != "" && !IsSpace(rest[|rest| - 1])
    ensures TrimSpace("--" + rest) == "--" + rest
  {
    assert !IsSpace('-');
    assert Trimmed("--" + rest);
  }

  lemma DashesGo()
    ensures FlagName("-- foo") == " foo" && SpaceBehindDashes("-- foo")
  {
    hide TrimDashes, TrimSpace, IsSpace;
    SpaceAndLetters();
    var rest := " foo";
    DashesAreKept(rest);
    TwoDashesLess(rest);
    assert "--" + rest == "-- foo";
  }

  lemma SpaceGoes()
    ensures FlagName(" foo") == "foo"
  {
    hide IsSpace;
    assert IsSpace(' ') && !IsSpace('-') && !IsSpace('o') && !IsSpace('f') by { SpaceAndLetters(); }
    assert " foo"[1..] == "foo";
    assert TrimLeft(" foo") == "foo" && TrimRight("foo") == "foo";
  }

  lemma SpaceAndLetters()
    ensures IsSpace(' ') && !IsSpace('-') && !IsSpace('o') && !IsSpace('f')
  {
  }
}

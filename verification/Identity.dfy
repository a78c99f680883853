/**
  The identity of a configuration: typed by a person, or derived by Prepare and derived
  again, over every order of assigning, applying and preparing.
 */
module Identity {
  import opened Wrappers
  import opened Text

  const DEFAULT_IDENTITY := "fisk-ai"

  /** The fields the identity step reads and writes. */
  datatype Fields = Fields(identity: string, derived: bool, valueDerived: string, path: string)

  const FRESH := Fields("", false, "", "")

  predicate ValidIdentity(name: string) {
    name != "" && forall i :: 0 <= i < |name| ==> AsciiLetter(name[i]) || Digit(name[i]) || name[i] == '-' || name[i] == '_'
  }

  /** The last element of a path, as filepath.Base gives it. */
  function Base(path: string): (b: string)
    ensures b != ""
  {
    if path == "" then "."
    else
      var stripped := StripSlashes(path);
      if stripped == "" then "/"
      else
        var slash := FindLast(stripped, '/');
        if slash.None? then stripped else stripped[slash.value + 1..]
  }

  function StripSlashes(path: string): (p: string)
    ensures p != "" ==> p[|p| - 1] != '/'
  {
    if path != "" && path[|path| - 1] == '/' then StripSlashes(path[..|path| - 1]) else path
  }

  predicate AllSlashes(s: string) {
    forall i :: 0 <= i < |s| ==> s[i] == '/'
  }

  lemma {:induction false} StripsSlashes(path: string, slashes: string)
    requires AllSlashes(slashes) && (path != "" ==> path[|path| - 1] != '/')
    ensures StripSlashes(path + slashes) == path
  {
    if slashes == "" {
      assert path + slashes == path;
    } else {
      var n := |slashes| - 1;
      StripsSlashes(path, slashes[..n]);
      assert (path + slashes)[..|path + slashes| - 1] == path + slashes[..n];
    }
  }

  /**
    The base of a path is its last element, whatever directory is in front of it and however
    many slashes are behind it; a path of slashes only is the root.
   */
  lemma BaseIsTheLastElement(dir: string, name: string, slashes: string)
    requires AllSlashes(slashes)
    ensures name != "" && '/' !in name && (dir == "" || dir[|dir| - 1] == '/') ==> Base(dir + name + slashes) == name
    ensures slashes != "" ==> Base(slashes) == "/"
    ensures Base("") == "."
  {
    if name != "" && '/' !in name && (dir == "" || dir[|dir| - 1] == '/') {
      var path := dir + name;
      StripsSlashes(path, slashes);
      if dir != "" {
        FindLastKnown(path, '/', |dir| - 1);
        assert path[|dir|..] == name;
      }
    }
    StripsSlashes("", slashes);
    assert "" + slashes == slashes;
  }

  /** Every path that is not slashes only has such a last element. */
  lemma {:induction false} PathsHaveALastElement(path: string) returns (dir: string, name: string, slashes: string)
    requires !AllSlashes(path)
    ensures path == dir + name + slashes && AllSlashes(slashes)
    ensures name != "" && '/' !in name && (dir == "" || dir[|dir| - 1] == '/')
    decreases |path|
  {
    var n := |path| - 1;
    if path[n] == '/' {
      dir, name, slashes := PathsHaveALastElement(path[..n]);
      slashes := slashes + "/";
    } else {
      var slash := FindLast(path, '/');
      var cut := if slash.None? then 0 else slash.value + 1;
      dir, name, slashes := path[..cut], path[cut..], "";
    }
  }

  /** What Prepare derives when nobody named the agent. */
  function Derivation(path: string): (d: string)
    ensures d != ""
    ensures path == "" ==> d == "fisk-ai"
    ensures path != "" ==> d == Base(path)
  {
    if path != "" then Base(path) else DEFAULT_IDENTITY
  }

  predicate Named(f: Fields) {
    f.identity != "" && !f.derived
  }

  /** An identity Prepare takes for one of its own. */
  predicate ReadsAsDerived(f: Fields) {
    f.identity == "" || (f.derived && f.identity == f.valueDerived)
  }

  function Prepared(f: Fields): Fields {
    if ReadsAsDerived(f) then Fields(Derivation(f.path), true, Derivation(f.path), f.path)
    else if f.derived then f.(derived := false, valueDerived := "")
    else f
  }

  function Applied(f: Fields, name: string): Fields {
    if ValidIdentity(name) then f.(identity := name, derived := false, valueDerived := "") else f
  }

  class Config {
    var identity: string
    var identityDerived: bool
    var identityValueDerived: string
    var applicationPath: string

    ghost function State(): Fields
      reads this
    {
      Fields(identity, identityDerived, identityValueDerived, applicationPath)
    }

    constructor ()
      ensures State() == FRESH
    {
      identity, identityDerived, identityValueDerived, applicationPath := "", false, "", "";
    }

    /** Whether the name was refused; an empty one is neither refused nor taken. */
    method ApplyIdentity(name: string) returns (refused: bool)
      modifies this
      ensures State() == Applied(old(State()), name)
      ensures !refused <==> forall i :: 0 <= i < |name| ==>
                || ('a' <= name[i] && name[i] <= 'z') || ('A' <= name[i] && name[i] <= 'Z')
                || ('0' <= name[i] && name[i] <= '9') || name[i] == '-' || name[i] == '_'
      ensures refused || name == "" ==> State() == old(State())
      ensures !refused && name != "" ==> identity == name && !identityDerived
    {
      if name == "" {
        return false;
      }
      if !ValidIdentity(name) {
        return true;
      }
      identity := name;
      identityDerived := false;
      identityValueDerived := "";
      return false;
    }

    method PrepareIdentity()
      modifies this
      ensures State() == Prepared(old(State()))
      ensures applicationPath == old(applicationPath)
      ensures old(identity == "" || (identityDerived && identity == identityValueDerived)) ==>
                && identityDerived && identityValueDerived == identity
                && (applicationPath == "" ==> identity == "fisk-ai")
                && (applicationPath != "" ==> identity == Base(applicationPath))
      ensures old(identity != "" && !(identityDerived && identity == identityValueDerived)) ==>
                identity == old(identity) && !identityDerived
    {
      if identity == "" || (identityDerived && identity == identityValueDerived) {
        var derived := DEFAULT_IDENTITY;
        if applicationPath != "" {
          derived := Base(applicationPath);
        }
        identity := derived;
        identityValueDerived := derived;
        identityDerived := true;
      } else if identityDerived {
        identityDerived := false;
        identityValueDerived := "";
      }
    }

    method IdentityIsNamed() returns (named: bool)
      ensures named == Named(State())
    {
      named := identity != "" && !identityDerived;
    }
  }

  // ----- every order of the four things that can happen to it

  datatype Op = Assign(name: string) | SetPath(path: string) | Apply(applied: string) | Prepare

  function Do(f: Fields, op: Op): Fields {
    match op
    case Assign(name) => f.(identity := name)
    case SetPath(path) => f.(path := path)
    case Apply(name) => Applied(f, name)
    case Prepare => Prepared(f)
  }

  function DoAll(ops: seq<Op>): Fields {
    if ops == [] then FRESH else Do(DoAll(ops[..|ops| - 1]), ops[|ops| - 1])
  }

  /** Where the identity came from, as whoever did these things would say. */
  datatype Origin = Unset | Chosen(name: string) | Derived

  function OriginOf(ops: seq<Op>): Origin {
    if ops == [] then Unset
    else OriginAfter(OriginOf(ops[..|ops| - 1]), ops[|ops| - 1])
  }

  function OriginAfter(before: Origin, op: Op): Origin {
    match op
    case Assign(name) => if name == "" then Unset else Chosen(name)
    case SetPath(_) => before
    case Apply(name) => if ValidIdentity(name) then Chosen(name) else before
    case Prepare => if before.Chosen? then before else Derived
  }

  /** Somebody assigns the very text Prepare last derived, which nothing can tell from it. */
  predicate Coincides(f: Fields, op: Op) {
    op.Assign? && op.name != "" && f.derived && op.name == f.valueDerived
  }

  predicate NeverCoincides(ops: seq<Op>) {
    forall k :: 0 <= k < |ops| ==> !Coincides(DoAll(ops[..k]), ops[k])
  }

  predicate Agrees(f: Fields, origin: Origin) {
    match origin
    case Unset => f.identity == ""
    case Chosen(name) => name != "" && f.identity == name && !ReadsAsDerived(f)
    case Derived => f.derived && f.identity == f.valueDerived && f.identity != ""
  }

  lemma StepAgrees(f: Fields, origin: Origin, op: Op)
    requires Agrees(f, origin) && !Coincides(f, op)
    ensures Agrees(Do(f, op), OriginAfter(origin, op))
  {
    hide Derivation, Base;
  }

  lemma {:induction false} FieldsAgree(ops: seq<Op>)
    requires NeverCoincides(ops)
    ensures Agrees(DoAll(ops), OriginOf(ops))
  {
    if ops != [] {
      var before := ops[..|ops| - 1];
      assert forall k :: 0 <= k < |before| ==> before[..k] == ops[..k] && before[k] == ops[k];
      FieldsAgree(before);
      StepAgrees(DoAll(before), OriginOf(before), ops[|ops| - 1]);
    }
  }

  /**
    Over every order of assigning the identity or the path, applying a name and preparing:
    after Prepare a name somebody chose is the identity and is reported as named, and one
    nobody chose is what the path as it now is derives, recorded as derived.
   */
  lemma PrepareKeepsWhatWasChosen(ops: seq<Op>)
    requires NeverCoincides(ops)
    ensures var f := Prepared(DoAll(ops));
            match OriginOf(ops)
            case Chosen(name) => f.identity == name && Named(f)
            case _ => f.identity == f.valueDerived == Derivation(f.path) && !Named(f)
  {
    FieldsAgree(ops);
  }

  /** Preparing what is prepared changes nothing, however it came to be what it is. */
  lemma PreparingTwice(ops: seq<Op>)
    ensures DoAll(ops + [Prepare, Prepare]) == DoAll(ops + [Prepare])
  {
    var once := ops + [Prepare];
    var twice := ops + [Prepare, Prepare];
    assert once[..|once| - 1] == ops && twice[..|twice| - 1] == once;
  }

  /**
    An assigned identity is meant to be kept and reported as named. It is, after the next
    Prepare, exactly when it is not the text the last Prepare derived: that one is derived
    again, and follows the path if the path has moved.
   */
  lemma AssignmentIsKeptUnlessItCoincides(f: Fields, name: string)
    requires name != ""
    ensures var g := Prepared(Do(f, Assign(name)));
            && (Named(g) <==> !Coincides(f, Assign(name)))
            && (g.identity == name <==> !Coincides(f, Assign(name)) || Derivation(f.path) == name)
  {
  }

  /** The case is real: an agent named after its binary is renamed when the path is set. */
  lemma CoincidingNameIsLost()
    ensures var ops := [SetPath("a"), Prepare, Assign("a"), SetPath("b"), Prepare];
            OriginOf(ops) == Chosen("a") && DoAll(ops).identity == "b" && !Named(DoAll(ops))
  {
    var ops := [SetPath("a"), Prepare, Assign("a"), SetPath("b"), Prepare];
    assert ops[..4][..3] == ops[..3] && ops[..3][..2] == ops[..2] && ops[..2][..1] == ops[..1] && ops[..1][..0] == [];
    assert Base("a") == "a" && Base("b") == "b";
    assert DoAll(ops[..1]) == FRESH.(path := "a");
    assert DoAll(ops[..2]) == Fields("a", true, "a", "a");
    assert DoAll(ops[..3]) == Fields("a", true, "a", "a") && OriginOf(ops[..3]) == Chosen("a");
    assert DoAll(ops[..4]) == Fields("a", true, "a", "b") && OriginOf(ops[..4]) == Chosen("a");
  }
}

/**
  Redacting an MCP endpoint before it is shown: what is replaced is exactly the userinfo,
  the parameter values and the fragment, and nothing they held can be read back.
 */
module Redaction {
  import opened Wrappers
  import opened Text
  import References

  const REDACTED := "REDACTED"

  /** A value that is one reference and nothing else, so it names a secret and holds none. */
  predicate BareReference(v: string) {
    var scanned := References.Scan(v, 0);
    scanned.Ok? && |scanned.value| == 1 && scanned.value[0].start == 0 && scanned.value[0].end == |v|
  }

  /** The values that are hidden. */
  predicate Secret(v: string) {
    v != "" && !BareReference(v)
  }

  function RedactValue(v: string): (r: string)
    ensures r == v || r == REDACTED
    ensures Secret(v) ==> r == REDACTED
    ensures !Secret(v) ==> r == v
  {
    if v == "" then v
    else if BareReference(v) then v
    else REDACTED
  }

  /** A bare reference is exactly the source text of some reference. */
  lemma BareReferenceIsSource(v: string)
    ensures BareReference(v) <==>
            exists t :: References.Nameable(t) && '}' !in References.Body(t) && v == References.Source(t)
  {
    hide References.Classify;
    if BareReference(v) {
      References.ScanTiles(v, 0);
      var r := References.Scan(v, 0).value[0];
      assert References.WrittenAt(v, r);
      assert v[0..|v|] == v;
      assert References.Nameable(r.target) && v == References.Source(r.target);
    }
    if t :| References.Nameable(t) && '}' !in References.Body(t) && v == References.Source(t) {
      BareFromSource(v, t);
    }
  }

  lemma BareFromSource(v: string, t: References.Target)
    requires References.Nameable(t) && '}' !in References.Body(t) && v == References.Source(t)
    ensures BareReference(v)
  {
    hide References.Classify, References.Body;
    var r := References.Reference(t, 0, |v|);
    assert v[0..|v|] == v;
    assert References.WrittenAt(v, r);
    forall p | 0 <= p && References.Opens(v, p) ensures References.Covers([r], p) {
      assert [r][0].start <= p < [r][0].end;
    }
    References.TilesScan(v, [r], 0);
  }

  lemma RedactedStays()
    ensures RedactValue(REDACTED) == REDACTED
  {
  }

  lemma RedactValueTwice(v: string)
    ensures RedactValue(RedactValue(v)) == RedactValue(v)
  {
    RedactedStays();
  }

  // ----- userinfo

  /** Where the userinfo of a url sits: what is before it, it, and what is from the "@" on. */
  function Userinfo(s: string): (r: Option<(string, string, string)>)
    ensures r.Some? ==> s == r.value.0 + r.value.1 + r.value.2
  {
    var slashes := FindPair(s, '/', '/', 0);
    if slashes.None? then None
    else
      var start := slashes.value + 2;
      var authority := AuthorityOf(s[start..]);
      var at := FindLast(authority, '@');
      if at.None? then None else Some((s[..start], authority[..at.value], s[start + at.value..]))
  }

  /** What follows the slashes, up to the next one. */
  function AuthorityOf(s: string): (r: string)
    ensures r <= s && '/' !in r
    ensures |r| < |s| ==> s[|r|] == '/'
  {
    var slash := FindChar(s, '/', 0);
    if slash.Some? then s[..slash.value] else s
  }

  function RedactUserinfo(s: string): string {
    var u := Userinfo(s);
    if u.None? then s else u.value.0 + RedactValue(u.value.1) + u.value.2
  }

  /** A prefix that ends with the first "//" of anything it starts. */
  predicate EndsInSlashes(pre: string) {
    |pre| >= 2 && FindPair(pre, '/', '/', 0) == Some(|pre| - 2)
  }

  predicate FromAt(post: string) {
    post != "" && post[0] == '@' && '@' !in AuthorityOf(post)[1..]
  }

  lemma AuthorityKnown(s: string, a: string)
    requires a <= s && '/' !in a && (|a| < |s| ==> s[|a|] == '/')
    ensures AuthorityOf(s) == a
  {
    var b := AuthorityOf(s);
    assert forall i :: 0 <= i < |a| ==> a[i] == s[i];
    assert forall i :: 0 <= i < |b| ==> b[i] == s[i];
  }

  lemma SlashesEndPrefix(s: string, start: nat)
    requires FindPair(s, '/', '/', 0).Some? && start == FindPair(s, '/', '/', 0).value + 2
    ensures start <= |s| && EndsInSlashes(s[..start])
  {
    var pre := s[..start];
    assert PairAt(pre, '/', '/', start - 2);
    assert forall j :: 0 <= j < start - 2 ==> PairAt(pre, '/', '/', j) == PairAt(s, '/', '/', j);
  }

  lemma FromLastAt(rest: string, authority: string, at: nat)
    requires authority == AuthorityOf(rest) && FindLast(authority, '@') == Some(at)
    ensures at < |rest| && FromAt(rest[at..])
  {
    assert rest[at..][..|authority| - at] == authority[at..];
    AuthorityKnown(rest[at..], authority[at..]);
  }

  lemma UserinfoParts(s: string)
    requires Userinfo(s).Some?
    ensures var (pre, user, post) := Userinfo(s).value;
            EndsInSlashes(pre) && '/' !in user && FromAt(post)
  {
    var start := FindPair(s, '/', '/', 0).value + 2;
    SlashesEndPrefix(s, start);
    var rest := s[start..];
    var authority := AuthorityOf(rest);
    var at := FindLast(authority, '@').value;
    assert s[start + at..] == rest[at..];
    FromLastAt(rest, authority, at);
  }

  lemma LastAtBehindUser(user: string, tail: string)
    requires tail != "" && tail[0] == '@' && '@' !in tail[1..]
    ensures FindLast(user + tail, '@') == Some(|user|)
  {
    var s := user + tail;
    forall j | |user| < j < |s| ensures s[j] != '@' {
      assert s[j] == tail[1..][j - |user| - 1];
    }
    FindLastKnown(s, '@', |user|);
  }

  lemma AuthorityBehindUser(user: string, post: string)
    requires '/' !in user
    ensures AuthorityOf(user + post) == user + AuthorityOf(post)
  {
    hide AuthorityOf;
    var tail := AuthorityOf(post);
    assert post == tail + post[|tail|..];
    assert user + post == (user + tail) + post[|tail|..];
    AuthorityKnown(user + post, user + tail);
  }

  lemma FromAtTail(post: string)
    requires FromAt(post)
    ensures var tail := AuthorityOf(post); tail != "" && tail[0] == '@' && '@' !in tail[1..]
  {
  }

  lemma SlashesBehindPrefix(pre: string, more: string)
    requires EndsInSlashes(pre)
    ensures FindPair(pre + more, '/', '/', 0) == Some(|pre| - 2)
  {
    var s := pre + more;
    assert forall j :: 0 <= j < |pre| - 1 ==> PairAt(s, '/', '/', j) == PairAt(pre, '/', '/', j);
    assert PairAt(s, '/', '/', |pre| - 2);
  }

  /** Any text that falls into such parts has that userinfo, whatever the userinfo says. */
  lemma UserinfoOf(pre: string, user: string, post: string)
    requires EndsInSlashes(pre) && '/' !in user && FromAt(post)
    ensures Userinfo(pre + user + post) == Some((pre, user, post))
  {
    hide AuthorityOf, FromAt, EndsInSlashes;
    var s := pre + user + post;
    assert s == pre + (user + post);
    SlashesBehindPrefix(pre, user + post);
    AuthorityBehindUser(user, post);
    FromAtTail(post);
    LastAtBehindUser(user, AuthorityOf(post));
    assert s[|pre|..] == user + post && s[..|pre|] == pre && s[|pre| + |user|..] == post;
    assert (user + AuthorityOf(post))[..|user|] == user;
  }

  lemma RedactUserinfoTwice(s: string)
    ensures RedactUserinfo(RedactUserinfo(s)) == RedactUserinfo(s)
  {
    if Userinfo(s).Some? {
      UserinfoKept(s);
      RedactValueTwice(Userinfo(s).value.1);
    }
  }

  // ----- the query

  /** A parameter's name, which is there only when text comes before an "=". */
  function ParamName(param: string): Option<string> {
    var (name, _, named) := Cut(param, '=');
    if named && name != "" then Some(name) else None
  }

  function ParamValue(param: string): string {
    var (name, value, named) := Cut(param, '=');
    if named && name != "" then value else param
  }

  function RedactParam(param: string): string {
    var value := RedactValue(ParamValue(param));
    if ParamName(param).None? then value else ParamName(param).value + "=" + value
  }

  function RedactParams(params: seq<string>): (r: seq<string>)
    ensures |r| == |params| && forall i :: 0 <= i < |params| ==> r[i] == RedactParam(params[i])
  {
    seq(|params|, i requires 0 <= i < |params| => RedactParam(params[i]))
  }

  function RedactQuery(query: string): string {
    if query == "" then query else Join(RedactParams(Split(query, '&')), '&')
  }

  method RedactQueryInPlace(query: string) returns (r: string)
    ensures r == RedactQuery(query)
  {
    if query == "" {
      return query;
    }
    var original := Split(query, '&');
    var params := original;
    for i := 0 to |params|
      invariant |params| == |original|
      invariant forall k :: 0 <= k < |params| ==> params[k] == if k < i then RedactParam(original[k]) else original[k]
    {
      var (name, value, named) := Cut(params[i], '=');
      if !named || name == "" {
        params := params[i := RedactValue(params[i])];
      } else {
        params := params[i := name + "=" + RedactValue(value)];
      }
    }
    assert params == RedactParams(original);
    return Join(params, '&');
  }

  lemma RedactParamTwice(param: string)
    ensures RedactParam(RedactParam(param)) == RedactParam(param)
    ensures ParamName(RedactParam(param)) == ParamName(param)
  {
    var value := ParamValue(param);
    RedactValueTwice(value);
    if ParamName(param).Some? {
      CutOf(ParamName(param).value, RedactValue(value), '=');
    } else if Secret(param) {
      CutOfNone(REDACTED, '=');
    }
  }

  // ----- the whole url

  function RedactUrl(v: string): string {
    if v == "" then v
    else
      var (front, fragment, hasFragment) := Cut(v, '#');
      var (rest, query, hasQuery) := Cut(front, '?');
      RedactUserinfo(rest) + (if hasQuery then "?" + RedactQuery(query) else "")
        + (if hasFragment then "#" + RedactValue(fragment) else "")
  }

  /** A url in the parts redaction tells apart. */
  datatype Url = Url(rest: string, params: Option<seq<string>>, fragment: Option<string>)

  function Print(u: Url): string
    requires u.params.Some? ==> u.params.value != []
  {
    u.rest + (if u.params.Some? then "?" + Join(u.params.value, '&') else "")
      + (if u.fragment.Some? then "#" + u.fragment.value else "")
  }

  function Parse(v: string): (u: Url)
    ensures u.params.Some? ==> u.params.value != []
  {
    var (front, fragment, hasFragment) := Cut(v, '#');
    var (rest, query, hasQuery) := Cut(front, '?');
    Url(rest, if hasQuery then Some(Split(query, '&')) else None, if hasFragment then Some(fragment) else None)
  }

  function RedactParts(u: Url): (r: Url)
    ensures u.params.Some? && u.params.value != [] ==> r.params.Some? && r.params.value != []
  {
    Url(RedactUserinfo(u.rest),
      if u.params.Some? then Some(RedactParams(u.params.value)) else None,
      if u.fragment.Some? then Some(RedactValue(u.fragment.value)) else None)
  }

  predicate Plain(param: string) {
    '&' !in param && '#' !in param
  }

  /** The parts a url can fall into: none holds a character that would end it. */
  predicate WellFormed(u: Url) {
    && '#' !in u.rest && '?' !in u.rest
    && (u.params.Some? ==> u.params.value != [] && forall i :: 0 <= i < |u.params.value| ==> Plain(u.params.value[i]))
  }

  lemma PrintOfParse(v: string)
    ensures WellFormed(Parse(v)) && Print(Parse(v)) == v
  {
    hide Cut, Split, Join;
    var (front, fragment, hasFragment) := Cut(v, '#');
    var (rest, query, hasQuery) := Cut(front, '?');
    if hasQuery {
      JoinOfSplit(query, '&');
      JoinHolds(Split(query, '&'), '&', '#');
    }
    assert front == rest + (if hasQuery then "?" + query else "");
    assert v == front + (if hasFragment then "#" + fragment else "");
  }

  /** The part of a printed url in front of its fragment, cut at its query. */
  lemma CutOfFront(rest: string, params: Option<seq<string>>)
    requires WellFormed(Url(rest, params, None))
    ensures var front := Print(Url(rest, params, None)); var cut := Cut(front, '?');
            && '#' !in front && cut.0 == rest && cut.2 == params.Some?
            && (params.Some? ==> Split(cut.1, '&') == params.value)
  {
    hide Split;
    var u := Url(rest, params, None);
    if params.Some? {
      var query := Join(params.value, '&');
      SplitOfJoin(params.value, '&');
      JoinHolds(params.value, '&', '#');
      CutOf(rest, query, '?');
      assert Print(u) == rest + ['?'] + query;
    } else {
      assert Print(u) == rest;
      CutOfNone(rest, '?');
    }
  }

  lemma ParseOfPrint(u: Url)
    requires WellFormed(u)
    ensures Parse(Print(u)) == u
  {
    hide Split, Join, Cut;
    var front := Print(Url(u.rest, u.params, None));
    CutOfFront(u.rest, u.params);
    if u.fragment.Some? {
      CutOf(front, u.fragment.value, '#');
      assert Print(u) == front + ['#'] + u.fragment.value;
    } else {
      CutOfNone(front, '#');
      assert Print(u) == front;
    }
  }

  /** Redaction works on the parts: it is the parts of the url, redacted, put back together. */
  lemma RedactionIsByParts(v: string)
    ensures RedactUrl(v) == Print(RedactParts(Parse(v)))
  {
    var u := Parse(v);
    if u.params.Some? {
      var query := Cut(Cut(v, '#').0, '?').1;
      if query == "" {
        assert Split(query, '&') == [""];
        assert RedactParams([""]) == [""];
      }
    }
    if v == "" {
      assert Userinfo("") == None;
    }
  }

  lemma RedactedParamIsPlain(param: string)
    requires Plain(param)
    ensures Plain(RedactParam(param))
  {
    var (name, value, named) := Cut(param, '=');
    assert Plain(name) && Plain(value) && Plain(REDACTED);
  }

  lemma RedactedRestIsPlain(s: string)
    requires '#' !in s && '?' !in s
    ensures '#' !in RedactUserinfo(s) && '?' !in RedactUserinfo(s)
  {
    hide Userinfo;
    var u := Userinfo(s);
    assert '#' !in REDACTED && '?' !in REDACTED;
    assert u.Some? ==> s == u.value.0 + u.value.1 + u.value.2;
  }

  lemma RedactedPartsAreWellFormed(u: Url)
    requires WellFormed(u)
    ensures WellFormed(RedactParts(u))
  {
    hide RedactParam, Plain, RedactUserinfo;
    RedactedRestIsPlain(u.rest);
    if u.params.Some? {
      forall i | 0 <= i < |u.params.value| ensures Plain(RedactParam(u.params.value[i])) {
        RedactedParamIsPlain(u.params.value[i]);
      }
    }
  }

  /** What is shown falls into the same parts as the url, each of them redacted. */
  lemma PartsOfRedacted(v: string)
    ensures Parse(RedactUrl(v)) == RedactParts(Parse(v))
  {
    PrintOfParse(v);
    RedactionIsByParts(v);
    RedactedPartsAreWellFormed(Parse(v));
    ParseOfPrint(RedactParts(Parse(v)));
  }

  /** Redacting what was already redacted changes nothing. */
  lemma RedactUrlTwice(v: string)
    ensures RedactUrl(RedactUrl(v)) == RedactUrl(v)
  {
    var u := Parse(v);
    PartsOfRedacted(v);
    RedactionIsByParts(v);
    RedactionIsByParts(RedactUrl(v));
    RedactUserinfoTwice(u.rest);
    if u.params.Some? {
      forall i | 0 <= i < |u.params.value| ensures RedactParam(RedactParam(u.params.value[i])) == RedactParam(u.params.value[i]) {
        RedactParamTwice(u.params.value[i]);
      }
      assert RedactParams(RedactParams(u.params.value)) == RedactParams(u.params.value);
    }
    if u.fragment.Some? {
      RedactValueTwice(u.fragment.value);
    }
  }

  predicate SameNames(a: seq<string>, b: seq<string>) {
    |a| == |b| && forall i :: 0 <= i < |a| ==> ParamName(a[i]) == ParamName(b[i])
  }

  lemma ParamsKeepNames(params: seq<string>)
    ensures SameNames(RedactParams(params), params)
  {
    hide RedactParam, ParamName;
    forall i | 0 <= i < |params| ensures ParamName(RedactParam(params[i])) == ParamName(params[i]) {
      RedactParamTwice(params[i]);
    }
  }

  lemma UserinfoKept(s: string)
    requires Userinfo(s).Some?
    ensures Userinfo(RedactUserinfo(s)) == Some((Userinfo(s).value.0, RedactValue(Userinfo(s).value.1), Userinfo(s).value.2))
  {
    var (pre, user, post) := Userinfo(s).value;
    UserinfoParts(s);
    UserinfoOf(pre, RedactValue(user), post);
  }

  /** What stands in a place of the shown url: the mark where the url had a secret, else the same text. */
  predicate Marked(shown: string, original: string) {
    shown == if Secret(original) then REDACTED else original
  }

  lemma ParamValuesMarked(params: seq<string>)
    ensures forall i :: 0 <= i < |params| ==> Marked(ParamValue(RedactParams(params)[i]), ParamValue(params[i]))
  {
    hide RedactParam, ParamValue, Secret;
    forall i | 0 <= i < |params| ensures Marked(ParamValue(RedactParam(params[i])), ParamValue(params[i])) {
      ParamValueMarked(params[i]);
    }
  }

  lemma ParamValueMarked(param: string)
    ensures Marked(ParamValue(RedactParam(param)), ParamValue(param))
  {
    var value := ParamValue(param);
    if ParamName(param).Some? {
      CutOf(ParamName(param).value, RedactValue(value), '=');
    } else if Secret(param) {
      CutOfNone(REDACTED, '=');
    }
  }

  /**
    An operator still reads the endpoint: what is shown has the scheme, host, port and path
    of the url around its userinfo, as many parameters with the same names, and a fragment
    exactly when the url had one; and every place of it that held a secret holds the mark.
   */
  lemma RedactionKeeps(v: string)
    ensures var u, shown := Parse(v), Parse(RedactUrl(v));
            && (Userinfo(u.rest).None? ==> shown.rest == u.rest)
            && (Userinfo(u.rest).Some? ==>
                  Userinfo(shown.rest).Some? &&
                  Userinfo(shown.rest).value.0 == Userinfo(u.rest).value.0 &&
                  Userinfo(shown.rest).value.2 == Userinfo(u.rest).value.2 &&
                  Marked(Userinfo(shown.rest).value.1, Userinfo(u.rest).value.1))
            && shown.params.Some? == u.params.Some? && shown.fragment.Some? == u.fragment.Some?
            && (u.params.Some? ==>
                  SameNames(shown.params.value, u.params.value) &&
                  forall i :: 0 <= i < |u.params.value| ==>
                    Marked(ParamValue(shown.params.value[i]), ParamValue(u.params.value[i])))
            && (u.fragment.Some? ==> Marked(shown.fragment.value, u.fragment.value))
  {
    hide Parse, RedactUrl, Userinfo, RedactUserinfo, ParamName, ParamValue, RedactValue, Secret;
    var u := Parse(v);
    PartsOfRedacted(v);
    if Userinfo(u.rest).Some? {
      UserinfoKept(u.rest);
    } else {
      NoUserinfoKept(u.rest);
    }
    if u.params.Some? {
      ParamsKeepNames(u.params.value);
      ParamValuesMarked(u.params.value);
    }
  }

  lemma NoUserinfoKept(s: string)
    requires Userinfo(s).None?
    ensures RedactUserinfo(s) == s
  {
  }

  // ----- nothing hidden can be read back

  predicate SameButSecret(a: string, b: string) {
    a == b || (Secret(a) && Secret(b))
  }

  predicate SameButSecretUser(a: string, b: string) {
    || a == b
    || (Userinfo(a).Some? && Userinfo(b).Some? && Userinfo(a).value.0 == Userinfo(b).value.0 &&
        Userinfo(a).value.2 == Userinfo(b).value.2 && SameButSecret(Userinfo(a).value.1, Userinfo(b).value.1))
  }

  /** Two urls that differ only in what is secret in them. */
  predicate SameEndpoint(a: Url, b: Url) {
    && SameButSecretUser(a.rest, b.rest)
    && a.params.Some? == b.params.Some? && a.fragment.Some? == b.fragment.Some?
    && (a.fragment.Some? ==> SameButSecret(a.fragment.value, b.fragment.value))
    && (a.params.Some? ==>
          && |a.params.value| == |b.params.value|
          && forall i :: 0 <= i < |a.params.value| ==>
               && ParamName(a.params.value[i]) == ParamName(b.params.value[i])
               && SameButSecret(ParamValue(a.params.value[i]), ParamValue(b.params.value[i])))
  }

  lemma SameUserSameText(a: string, b: string)
    requires SameButSecretUser(a, b)
    ensures RedactUserinfo(a) == RedactUserinfo(b)
  {
    hide Secret, Userinfo;
  }

  lemma SameParamsSameText(a: seq<string>, b: seq<string>)
    requires |a| == |b|
    requires forall i :: 0 <= i < |a| ==>
               ParamName(a[i]) == ParamName(b[i]) && SameButSecret(ParamValue(a[i]), ParamValue(b[i]))
    ensures RedactParams(a) == RedactParams(b)
  {
    hide Secret, ParamName, ParamValue;
    assert forall i :: 0 <= i < |a| ==> RedactParam(a[i]) == RedactParam(b[i]);
  }

  /** They are shown as the same text, so the text says nothing of the secrets. */
  lemma SecretsDoNotShow(v: string, w: string)
    requires SameEndpoint(Parse(v), Parse(w))
    ensures RedactUrl(v) == RedactUrl(w)
  {
    hide Secret, SameButSecretUser, RedactUserinfo, ParamName, ParamValue, Parse, RedactUrl, Join;
    RedactionIsByParts(v);
    RedactionIsByParts(w);
    var a, b := Parse(v), Parse(w);
    SameUserSameText(a.rest, b.rest);
    if a.params.Some? {
      SameParamsSameText(a.params.value, b.params.value);
    }
  }

  // ----- a url spelled out

  /** The source text of some reference. */
  ghost predicate IsReference(text: string) {
    exists t :: References.Nameable(t) && '}' !in References.Body(t) && text == References.Source(t)
  }

  /** What is shown in the place of a text. */
  ghost function Shown(text: string): string {
    if text == "" || IsReference(text) then text else "REDACTED"
  }

  lemma ShownIs(text: string)
    ensures RedactValue(text) == Shown(text)
  {
    hide BareReference;
    BareReferenceIsSource(text);
  }

  /** A parameter keeps what is in front of its first "=", when something is. */
  lemma NamedParameter(name: string, value: string)
    requires name != "" && '=' !in name
    ensures RedactParam(name + "=" + value) == name + "=" + Shown(value)
  {
    hide Shown, BareReference;
    ShownIs(value);
    CutOf(name, value, '=');
  }

  /** One without a name is a value as a whole. */
  lemma UnnamedParameter(param: string)
    requires '=' !in param || (param != "" && param[0] == '=')
    ensures RedactParam(param) == Shown(param)
  {
    hide Shown, BareReference;
    ShownIs(param);
    if '=' !in param {
      CutOfNone(param, '=');
    } else {
      assert param == "" + "=" + param[1..];
      CutOf("", param[1..], '=');
    }
  }

  /** No two slashes in a row, nor one that a "//" behind the text would pair with. */
  predicate NoSlashPair(s: string) {
    (s != "" ==> s[|s| - 1] != '/') && forall i :: 0 <= i < |s| - 1 ==> !(s[i] == '/' && s[i + 1] == '/')
  }

  /** The userinfo is what stands between the first "//" and the last "@" before the next slash. */
  lemma SpelledUserinfo(scheme: string, user: string, host: string, path: string)
    requires NoSlashPair(scheme)
    requires '/' !in user && '/' !in host && '@' !in host && (path == "" || path[0] == '/')
    ensures RedactUserinfo(scheme + "//" + user + "@" + host + path) == scheme + "//" + Shown(user) + "@" + host + path
    ensures RedactUserinfo(scheme + "//" + host + path) == scheme + "//" + host + path
  {
    hide RedactUserinfo, Shown, EndsInSlashes, NoSlashPair;
    PrefixEnds(scheme);
    UserSpelled(scheme + "//", user, host, path);
    NoUserinfoSpelled(scheme, host, path);
    assert scheme + "//" + user + "@" + host + path == scheme + "//" + user + ("@" + host + path);
    assert scheme + "//" + Shown(user) + "@" + host + path == scheme + "//" + Shown(user) + ("@" + host + path);
  }

  lemma UserSpelled(pre: string, user: string, host: string, path: string)
    requires EndsInSlashes(pre) && '/' !in user && '/' !in host && '@' !in host && (path == "" || path[0] == '/')
    ensures RedactUserinfo(pre + user + ("@" + host + path)) == pre + Shown(user) + ("@" + host + path)
  {
    hide AuthorityOf, EndsInSlashes, Shown, Userinfo, BareReference;
    ShownIs(user);
    var post := "@" + host + path;
    assert post == ("@" + host) + path;
    AuthorityKnown(post, "@" + host);
    assert ("@" + host)[1..] == host;
    UserinfoOf(pre, user, post);
  }

  lemma PrefixEnds(scheme: string)
    requires NoSlashPair(scheme)
    ensures EndsInSlashes(scheme + "//")
  {
    var pre := scheme + "//";
    assert forall j :: 0 <= j < |scheme| ==> !PairAt(pre, '/', '/', j);
    assert PairAt(pre, '/', '/', |scheme|);
  }

  lemma NoUserinfoSpelled(scheme: string, host: string, path: string)
    requires EndsInSlashes(scheme + "//")
    requires '/' !in host && '@' !in host && (path == "" || path[0] == '/')
    ensures RedactUserinfo(scheme + "//" + host + path) == scheme + "//" + host + path
  {
    var s, pre := scheme + "//" + host + path, scheme + "//";
    assert s == pre + (host + path);
    SlashesBehindPrefix(pre, host + path);
    assert s[|pre|..] == host + path;
    AuthorityKnown(host + path, host);
  }

  /** The path, the query and the fragment are told apart by the first "#", then by the first "?" before it. */
  lemma SpelledUrl(rest: string, params: Option<seq<string>>, fragment: Option<string>)
    requires '#' !in rest && '?' !in rest
    requires params.Some? ==> params.value != []
                              && forall i :: 0 <= i < |params.value| ==> '&' !in params.value[i] && '#' !in params.value[i]
    ensures params.Some? ==> |RedactParams(params.value)| == |params.value|
    ensures RedactUrl(rest + (if params.Some? then "?" + Join(params.value, '&') else "")
                      + (if fragment.Some? then "#" + fragment.value else "")) ==
            RedactUserinfo(rest) + (if params.Some? then "?" + Join(RedactParams(params.value), '&') else "")
              + (if fragment.Some? then "#" + Shown(fragment.value) else "")
  {
    hide RedactUrl, RedactUserinfo, RedactParam, Parse, Join, Shown, BareReference;
    if fragment.Some? {
      ShownIs(fragment.value);
    }
    SpelledParts(Url(rest, params, fragment));
  }

  lemma SpelledParts(u: Url)
    requires WellFormed(u)
    ensures RedactUrl(Print(u)) == Print(RedactParts(u))
  {
    hide RedactUrl, RedactParts, Parse, Print;
    ParseOfPrint(u);
    RedactionIsByParts(Print(u));
  }
}

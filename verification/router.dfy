/**
 * The hash router of the portfolio site. A route pattern such as
 * `/publication/:id` is compiled into a sequence of segments, literal
 * characters and named parameters; the current hash is dispatched to the
 * first registered route whose segments match it. Handlers are opaque
 * callbacks, named here by their registration index, and navigating is an
 * action the browser carries out.
 */
module Router {
  import opened Wrappers

  /** One piece of a compiled pattern: a character to match, or a `:name` capture. */
  datatype Segment = Lit(c: char) | Param(name: string)

  datatype Route = Route(pattern: seq<Segment>, handler: int)

  datatype Router = Router(routes: seq<Route>, currentPath: string)

  /** What `route()` does with the hash. */
  datatype Action =
    | Skip                                          // same path as last time
    | Dispatch(index: nat, params: map<string, string>) // call that route's handler once
    | NavigateHome                                  // no route matched: set the hash to '/'

  /** A regular-expression word character, `\w`. */
  predicate IsWord(c: char)
  {
    'a' <= c <= 'z' || 'A' <= c <= 'Z' || '0' <= c <= '9' || c == '_'
  }

  /** The length of the run of word characters `s` starts with. */
  function WordRun(s: string): (n: nat)
    ensures n <= |s|
    ensures forall i :: 0 <= i < n ==> IsWord(s[i])
    ensures n < |s| ==> !IsWord(s[n])
  {
    if |s| == 0 || !IsWord(s[0]) then 0 else 1 + WordRun(s[1..])
  }

  // ---------------------------------------------------------------------
  // Compiling a pattern
  // ---------------------------------------------------------------------

  /** A parameter name: one or more word characters. */
  predicate IsName(n: string)
  {
    |n| > 0 && forall i :: 0 <= i < |n| ==> IsWord(n[i])
  }

  /**
   * The shape `add` produces: every parameter has a name, and a name is
   * never followed by a literal word character, since the name took it.
   */
  predicate WellFormed(segs: seq<Segment>)
  {
    forall i :: 0 <= i < |segs| && segs[i].Param? ==>
      IsName(segs[i].name) && (i + 1 < |segs| && segs[i + 1].Lit? ==> !IsWord(segs[i + 1].c))
  }

  /** The pattern begins with `:` and a word character, so `add` takes a parameter name there. */
  predicate IsParamStart(pattern: string)
  {
    |pattern| > 1 && pattern[0] == ':' && IsWord(pattern[1])
  }

  /** `pattern.replace(/:(\w+)/g, …)`: each `:name` becomes a capture, every other character a literal. */
  function Compile(pattern: string): (segs: seq<Segment>)
    ensures |segs| <= |pattern|
    ensures |segs| == 0 <==> |pattern| == 0
    decreases |pattern|
  {
    if |pattern| == 0 then []
    else if IsParamStart(pattern) then
      var n := WordRun(pattern[1..]);
      [Param(pattern[1..1 + n])] + Compile(pattern[1 + n..])
    else
      [Lit(pattern[0])] + Compile(pattern[1..])
  }

  /** Every compiled pattern has the shape `add` promises. */
  lemma {:induction false} CompileWellFormed(pattern: string)
    ensures WellFormed(Compile(pattern))
    ensures |Compile(pattern)| > 0 && Compile(pattern)[0].Lit? ==> Compile(pattern)[0].c == pattern[0]
    decreases |pattern|
  {
    if |pattern| == 0 {
    } else if IsParamStart(pattern) {
      var n := WordRun(pattern[1..]);
      CompileWellFormed(pattern[1 + n..]);
      WellFormedParamStep(pattern);
    } else {
      CompileWellFormed(pattern[1..]);
      WellFormedLitStep(pattern);
    }
  }

  lemma WellFormedParamStep(pattern: string)
    requires IsParamStart(pattern)
    requires var tail := pattern[1 + WordRun(pattern[1..])..];
             WellFormed(Compile(tail)) &&
             (|Compile(tail)| > 0 && Compile(tail)[0].Lit? ==> Compile(tail)[0].c == tail[0])
    ensures WellFormed(Compile(pattern)) && Compile(pattern)[0].Param?
  {
    var n := WordRun(pattern[1..]);
    var tail := pattern[1 + n..];
    var rest := Compile(tail);
    var segs := Compile(pattern);
    assert segs == [Param(pattern[1..1 + n])] + rest;
    if |rest| > 0 && rest[0].Lit? {
      assert tail[0] == pattern[1..][n];
    }
    forall i | 0 <= i < |segs| && segs[i].Param?
      ensures IsName(segs[i].name) && (i + 1 < |segs| && segs[i + 1].Lit? ==> !IsWord(segs[i + 1].c))
    {
      if i > 0 {
        assert segs[i] == rest[i - 1];
      }
    }
  }

  lemma WellFormedLitStep(pattern: string)
    requires |pattern| > 0 && !IsParamStart(pattern)
    requires WellFormed(Compile(pattern[1..]))
    ensures WellFormed(Compile(pattern)) && Compile(pattern)[0] == Lit(pattern[0])
  {
    CompileLitStep(pattern);
    WellFormedLitCons(pattern[0], Compile(pattern[1..]));
  }

  /** A pattern that does not start a parameter compiles its first character to a literal. */
  lemma CompileLitStep(pattern: string)
    requires |pattern| > 0 && !IsParamStart(pattern)
    ensures Compile(pattern) == [Lit(pattern[0])] + Compile(pattern[1..])
  {
  }

  /** A literal in front keeps the shape: it follows no parameter. */
  lemma WellFormedLitCons(c: char, rest: seq<Segment>)
    requires WellFormed(rest)
    ensures WellFormed([Lit(c)] + rest)
  {
    var segs := [Lit(c)] + rest;
    forall i | 0 <= i < |segs| && segs[i].Param?
      ensures IsName(segs[i].name) && (i + 1 < |segs| && segs[i + 1].Lit? ==> !IsWord(segs[i + 1].c))
    {
      assert i > 0 && segs[i] == rest[i - 1];
      if i + 1 < |segs| {
        assert segs[i + 1] == rest[i];
      }
    }
  }

  /** The pattern text a segment sequence is written as. */
  function Unparse(segs: seq<Segment>): string
  {
    if |segs| == 0 then ""
    else (match segs[0] case Lit(c) => [c] case Param(n) => ":" + n) + Unparse(segs[1..])
  }

  /** Compiling loses nothing: the segments spell out the pattern again. */
  lemma {:induction false} UnparseCompile(pattern: string)
    ensures Unparse(Compile(pattern)) == pattern
    decreases |pattern|
  {
    if |pattern| == 0 {
    } else if IsParamStart(pattern) {
      var n := WordRun(pattern[1..]);
      UnparseCompile(pattern[1 + n..]);
      UnparseParamStep(pattern);
    } else {
      UnparseCompile(pattern[1..]);
      UnparseLitStep(pattern);
    }
  }

  lemma UnparseParamStep(pattern: string)
    requires IsParamStart(pattern)
    requires Unparse(Compile(pattern[1 + WordRun(pattern[1..])..])) == pattern[1 + WordRun(pattern[1..])..]
    ensures Unparse(Compile(pattern)) == pattern
  {
    var n := WordRun(pattern[1..]);
    var tail := pattern[1 + n..];
    var name := pattern[1..1 + n];
    assert Compile(pattern) == [Param(name)] + Compile(tail);
    UnparseCons(Param(name), Compile(tail));
    SplitAtName(pattern, n);
  }

  lemma SplitAtName(pattern: string, n: nat)
    requires |pattern| > 0 && pattern[0] == ':' && 1 + n <= |pattern|
    ensures pattern == (":" + pattern[1..1 + n]) + pattern[1 + n..]
  {
    assert pattern == [pattern[0]] + pattern[1..];
    assert pattern[1..] == pattern[1..1 + n] + pattern[1 + n..];
  }

  lemma UnparseCons(x: Segment, rest: seq<Segment>)
    ensures Unparse([x] + rest) == (match x case Lit(c) => [c] case Param(n) => ":" + n) + Unparse(rest)
  {
    assert ([x] + rest)[0] == x && ([x] + rest)[1..] == rest;
  }

  lemma UnparseLitStep(pattern: string)
    requires |pattern| > 0 && !IsParamStart(pattern)
    requires Unparse(Compile(pattern[1..])) == pattern[1..]
    ensures Unparse(Compile(pattern)) == pattern
  {
    assert Compile(pattern) == [Lit(pattern[0])] + Compile(pattern[1..]);
    UnparseCons(Lit(pattern[0]), Compile(pattern[1..]));
    assert pattern == [pattern[0]] + pattern[1..];
  }

  // ---------------------------------------------------------------------
  // Matching
  // ---------------------------------------------------------------------

  /** A captured value: one or more characters other than '/'. */
  predicate IsCapture(v: string)
  {
    |v| > 0 && forall i :: 0 <= i < |v| ==> v[i] != '/'
  }

  /** The length of the run of non-'/' characters `s` starts with. */
  function SegmentRun(s: string): (n: nat)
    ensures n <= |s|
    ensures forall i :: 0 <= i < n ==> s[i] != '/'
    ensures n < |s| ==> s[n] == '/'
  {
    if |s| == 0 || s[0] == '/' then 0 else 1 + SegmentRun(s[1..])
  }

  function ParamCount(segs: seq<Segment>): nat
  {
    if |segs| == 0 then 0 else (if segs[0].Param? then 1 else 0) + ParamCount(segs[1..])
  }

  /** The path the segments spell with `caps` substituted for the parameters in order. */
  function Fill(segs: seq<Segment>, caps: seq<string>): string
    requires |caps| == ParamCount(segs)
  {
    if |segs| == 0 then ""
    else match segs[0]
      case Lit(c) => [c] + Fill(segs[1..], caps)
      case Param(_) => caps[0] + Fill(segs[1..], caps[1..])
  }

  /**
   * The anchored regular expression `^…$` applied to `s`: literals match
   * themselves and a capture takes one or more non-'/' characters, the
   * longest first, backtracking to shorter ones when the rest fails.
   */
  function MatchFrom(segs: seq<Segment>, s: string): (r: Option<seq<string>>)
    ensures r.Some? ==> |r.value| == ParamCount(segs)
    decreases |segs|, 1, 0
  {
    if |segs| == 0 then (if |s| == 0 then Some([]) else None)
    else match segs[0]
      case Lit(c) => if |s| > 0 && s[0] == c then MatchFrom(segs[1..], s[1..]) else None
      case Param(_) => TryLengths(segs, s, SegmentRun(s))
  }

  /** The capture for the leading parameter tried at lengths `k`, `k - 1`, …, 1. */
  function TryLengths(segs: seq<Segment>, s: string, k: nat): (r: Option<seq<string>>)
    requires |segs| > 0 && segs[0].Param? && k <= |s|
    ensures r.Some? ==> |r.value| == ParamCount(segs)
    decreases |segs|, 0, k
  {
    if k == 0 then None
    else match MatchFrom(segs[1..], s[k..])
      case Some(caps) => Some([s[..k]] + caps)
      case None => TryLengths(segs, s, k - 1)
  }

  /** Every value in `caps` is a valid capture. */
  predicate AllCaptures(caps: seq<string>)
  {
    forall i :: 0 <= i < |caps| ==> IsCapture(caps[i])
  }

  /** A match is a way of filling the pattern's parameters with captures to spell the path. */
  lemma {:induction false} MatchSound(segs: seq<Segment>, s: string)
    ensures MatchFrom(segs, s).Some? ==>
              AllCaptures(MatchFrom(segs, s).value) && Fill(segs, MatchFrom(segs, s).value) == s
    decreases |segs|, 1, 0
  {
    if |segs| > 0 {
      match segs[0]
      case Lit(c) =>
        if |s| > 0 && s[0] == c {
          MatchSound(segs[1..], s[1..]);
          assert s == [c] + s[1..];
        }
      case Param(_) => TryLengthsSound(segs, s, SegmentRun(s));
    }
  }

  lemma {:induction false} TryLengthsSound(segs: seq<Segment>, s: string, k: nat)
    requires |segs| > 0 && segs[0].Param? && k <= SegmentRun(s)
    ensures TryLengths(segs, s, k).Some? ==>
              AllCaptures(TryLengths(segs, s, k).value) && Fill(segs, TryLengths(segs, s, k).value) == s
    decreases |segs|, 0, k
  {
    if k > 0 {
      MatchSound(segs[1..], s[k..]);
      TryLengthsSound(segs, s, k - 1);
      var r := MatchFrom(segs[1..], s[k..]);
      if r.Some? {
        var caps := [s[..k]] + r.value;
        assert caps[0] == s[..k] && caps[1..] == r.value;
        assert s == s[..k] + s[k..];
      }
    }
  }

  /** Conversely, whenever captures spell the path, the matcher finds a match. */
  lemma {:induction false} MatchComplete(segs: seq<Segment>, caps: seq<string>)
    requires |caps| == ParamCount(segs) && AllCaptures(caps)
    ensures MatchFrom(segs, Fill(segs, caps)).Some?
    decreases |segs|
  {
    if |segs| > 0 {
      var s := Fill(segs, caps);
      match segs[0]
      case Lit(c) =>
        MatchComplete(segs[1..], caps);
        assert s[1..] == Fill(segs[1..], caps);
      case Param(_) =>
        var v, rest := caps[0], Fill(segs[1..], caps[1..]);
        assert AllCaptures(caps[1..]) by {
          forall i | 0 <= i < |caps[1..]| ensures IsCapture(caps[1..][i]) {
            assert caps[1..][i] == caps[i + 1];
          }
        }
        MatchComplete(segs[1..], caps[1..]);
        assert s == v + rest;
        assert IsCapture(caps[0]);
        RunCoversCapture(v, rest);
        assert s[|v|..] == rest;
        TryLengthsReaches(segs, s, SegmentRun(s), |v|);
    }
  }

  /** A capture at the front of a string lies within its leading non-'/' run. */
  lemma RunCoversCapture(v: string, rest: string)
    requires IsCapture(v)
    ensures |v| <= SegmentRun(v + rest)
  {
    var s := v + rest;
    assert forall i :: 0 <= i < |v| ==> s[i] == v[i];
  }

  /** Trying lengths from `k` down finds a match if length `j` works. */
  lemma {:induction false} TryLengthsReaches(segs: seq<Segment>, s: string, k: nat, j: nat)
    requires |segs| > 0 && segs[0].Param? && k <= |s|
    requires 0 < j <= k && MatchFrom(segs[1..], s[j..]).Some?
    ensures TryLengths(segs, s, k).Some?
    decreases k
  {
    if k > j && MatchFrom(segs[1..], s[k..]).None? {
      TryLengthsReaches(segs, s, k - 1, j);
    }
  }

  /** `match.groups || {}`: the captures by parameter name. */
  function Groups(segs: seq<Segment>, caps: seq<string>): map<string, string>
    requires |caps| == ParamCount(segs)
  {
    if |segs| == 0 then map[]
    else match segs[0]
      case Lit(_) => Groups(segs[1..], caps)
      case Param(n) => Groups(segs[1..], caps[1..])[n := caps[0]]
  }

  // ---------------------------------------------------------------------
  // The router
  // ---------------------------------------------------------------------

  function Empty(): Router
  {
    Router([], "")
  }

  /** `add(pattern, handler)`: the new route goes after all earlier ones. */
  function Add(r: Router, pattern: string, handler: int): (r': Router)
    ensures r'.routes == r.routes + [Route(Compile(pattern), handler)]
    ensures r'.currentPath == r.currentPath
  {
    r.(routes := r.routes + [Route(Compile(pattern), handler)])
  }

  /** `window.location.hash.slice(1) || '/'`: the path without its '#', or '/' when empty. */
  function PathOf(hash: string): (p: string)
    ensures |p| > 0
    ensures |hash| > 1 ==> p == hash[1..]
    ensures |hash| <= 1 ==> p == "/"
  {
    var tail := if |hash| == 0 then "" else hash[1..];
    if tail == "" then "/" else tail
  }

  /** The first route, from `from` on, whose pattern matches `path`. */
  function FirstMatch(routes: seq<Route>, path: string, from: nat): (r: Option<nat>)
    requires from <= |routes|
    ensures r.Some? ==> from <= r.value < |routes| && MatchFrom(routes[r.value].pattern, path).Some?
    ensures r.Some? ==> forall j :: from <= j < r.value ==> MatchFrom(routes[j].pattern, path).None?
    ensures r.None? ==> forall j :: from <= j < |routes| ==> MatchFrom(routes[j].pattern, path).None?
    decreases |routes| - from
  {
    if from == |routes| then None
    else if MatchFrom(routes[from].pattern, path).Some? then Some(from)
    else FirstMatch(routes, path, from + 1)
  }

  /** `route()` on the current `hash`: the router afterwards and what it does. */
  function RouteHash(r: Router, hash: string): (res: (Router, Action))
    ensures PathOf(hash) == r.currentPath ==> res == (r, Skip)
    ensures PathOf(hash) != r.currentPath ==> res.0 == r.(currentPath := PathOf(hash)) && !res.1.Skip?
    ensures res.1.Dispatch? ==> res.1.index < |r.routes|
  {
    var path := PathOf(hash);
    if path == r.currentPath then (r, Skip)
    else
      var r' := r.(currentPath := path);
      match FirstMatch(r.routes, path, 0)
      case Some(i) =>
        var pattern := r.routes[i].pattern;
        (r', Dispatch(i, Groups(pattern, MatchFrom(pattern, path).value)))
      case None => (r', NavigateHome)
  }

  /** `getCurrentPath()`. */
  function CurrentPath(r: Router): string
  {
    r.currentPath
  }

  /**
   * The current path is the last path routed: `route` records every new path
   * before dispatching it, and adding a route leaves it alone.
   */
  lemma CurrentPathTracksRoutes(r: Router, hash: string, pattern: string, handler: int)
    ensures CurrentPath(RouteHash(r, hash).0) == PathOf(hash)
    ensures CurrentPath(Add(r, pattern, handler)) == CurrentPath(r)
  {
  }

  /**
   * A new path goes to the first route that matches it, with that route's
   * captures, and to the home page only when no route matches.
   */
  lemma RouteDispatchesFirstMatch(r: Router, hash: string)
    requires PathOf(hash) != r.currentPath
    ensures CurrentPath(RouteHash(r, hash).0) == PathOf(hash)
    ensures RouteHash(r, hash).1.NavigateHome? <==>
              forall j :: 0 <= j < |r.routes| ==> MatchFrom(r.routes[j].pattern, PathOf(hash)).None?
    ensures RouteHash(r, hash).1.Dispatch? ==>
              var i := RouteHash(r, hash).1.index;
              MatchFrom(r.routes[i].pattern, PathOf(hash)).Some? &&
              forall j :: 0 <= j < i ==> MatchFrom(r.routes[j].pattern, PathOf(hash)).None?
  {
  }

  /** Routing the same hash twice handles it once: the second time does nothing. */
  lemma RouteTwiceSkips(r: Router, hash: string)
    ensures RouteHash(RouteHash(r, hash).0, hash) == (RouteHash(r, hash).0, Skip)
  {
  }

  /** The router starts with no path, so the first `route()` of `init` never skips. */
  lemma InitialRouteNeverSkips(r: Router, hash: string)
    requires r.currentPath == ""
    ensures !RouteHash(r, hash).1.Skip?
  {
  }

  /** Registering a route later never takes a path from a route registered earlier. */
  lemma AddKeepsEarlierMatches(r: Router, pattern: string, handler: int, hash: string)
    requires RouteHash(r, hash).1.Dispatch?
    ensures RouteHash(Add(r, pattern, handler), hash).1 == RouteHash(r, hash).1
  {
    FirstMatchPrefix(r.routes, [Route(Compile(pattern), handler)], PathOf(hash), 0);
  }

  lemma {:induction false} FirstMatchPrefix(routes: seq<Route>, more: seq<Route>, path: string, from: nat)
    requires from <= |routes| && FirstMatch(routes, path, from).Some?
    ensures FirstMatch(routes + more, path, from) == FirstMatch(routes, path, from)
    decreases |routes| - from
  {
    assert (routes + more)[from] == routes[from];
    if MatchFrom(routes[from].pattern, path).None? {
      FirstMatchPrefix(routes, more, path, from + 1);
    }
  }

  /** The segments of text with no parameter in it. */
  function Lits(a: string): (segs: seq<Segment>)
    ensures |segs| == |a| && ParamCount(segs) == 0
    ensures forall i :: 0 <= i < |a| ==> segs[i] == Lit(a[i])
  {
    if |a| == 0 then [] else [Lit(a[0])] + Lits(a[1..])
  }

  /** Text without a ':' compiles to literals, whatever follows it. */
  lemma {:induction false} CompileLiteralPrefix(a: string, b: string)
    requires forall i :: 0 <= i < |a| ==> a[i] != ':'
    ensures Compile(a + b) == Lits(a) + Compile(b)
    decreases |a|
  {
    if |a| > 0 {
      CompileLiteralPrefix(a[1..], b);
      var t := a + b;
      assert t[0] == a[0] && t[0] != ':';
      assert !IsParamStart(t);
      assert t[1..] == a[1..] + b;
      CompileLitStep(t);
      assert Lits(a) == [Lit(a[0])] + Lits(a[1..]);
      assert Lits(a) + Compile(b) == [Lit(a[0])] + (Lits(a[1..]) + Compile(b));
    } else {
      assert a + b == b;
    }
  }

  /** Literal segments match exactly their own text and hand the rest on. */
  lemma {:induction false} MatchLiteralPrefix(a: string, rest: seq<Segment>, s: string)
    ensures MatchFrom(Lits(a) + rest, a + s) == MatchFrom(rest, s)
    decreases |a|
  {
    if |a| > 0 {
      MatchLiteralPrefix(a[1..], rest, s);
      var segs := Lits(a) + rest;
      assert segs[0] == Lit(a[0]) && segs[1..] == Lits(a[1..]) + rest;
      assert (a + s)[0] == a[0] && (a + s)[1..] == a[1..] + s;
    } else {
      assert Lits(a) + rest == rest && a + s == s;
    }
  }

  /** `:name` alone compiles to the one capture. */
  lemma CompileParam(name: string)
    requires IsName(name)
    ensures Compile(":" + name) == [Param(name)]
  {
    var p := ":" + name;
    assert p[1..] == name;
    WordRunAll(name);
    assert p[1..1 + |name|] == name && p[1 + |name|..] == "";
  }

  lemma {:induction false} WordRunAll(name: string)
    requires forall i :: 0 <= i < |name| ==> IsWord(name[i])
    ensures WordRun(name) == |name|
  {
    if |name| > 0 {
      WordRunAll(name[1..]);
    }
  }

  /** The shape of the documented pattern `/publication/:id`: literal text, then one parameter. */
  lemma CompileTrailingParam(prefix: string, name: string)
    requires forall i :: 0 <= i < |prefix| ==> prefix[i] != ':'
    requires IsName(name)
    ensures Compile(prefix + ":" + name) == Lits(prefix) + [Param(name)]
  {
    CompileLiteralPrefix(prefix, ":" + name);
    CompileParam(name);
    assert prefix + ":" + name == prefix + (":" + name);
  }

  /** A lone parameter captures the whole of a valid value. */
  lemma ParamTakesAll(name: string, v: string)
    requires IsCapture(v)
    ensures MatchFrom([Param(name)], v) == Some([v])
  {
    var k := SegmentRun(v);
    assert k == |v|;
    var segs := [Param(name)];
    assert v[k..] == "" && v[..k] == v;
    assert segs[1..] == [];
    assert MatchFrom(segs[1..], v[k..]) == Some([]);
    assert [v[..k]] + [] == [v];
    assert TryLengths(segs, v, k) == Some([v]);
  }

  /**
   * Such a pattern matches its text followed by any capture, and the
   * handler gets that capture under the parameter's name.
   */
  lemma TrailingParamMatches(prefix: string, name: string, v: string)
    requires forall i :: 0 <= i < |prefix| ==> prefix[i] != ':'
    requires IsName(name) && IsCapture(v)
    ensures var segs := Compile(prefix + ":" + name);
            MatchFrom(segs, prefix + v) == Some([v]) && Groups(segs, [v]) == map[name := v]
  {
    CompileTrailingParam(prefix, name);
    MatchLiteralPrefix(prefix, [Param(name)], v);
    ParamTakesAll(name, v);
    GroupsOfLiterals(prefix, [Param(name)], [v]);
    assert Groups([Param(name)], [v]) == map[name := v] by {
      assert [Param(name)][1..] == [];
    }
  }

  /** Literal segments contribute no groups. */
  lemma {:induction false} GroupsOfLiterals(a: string, rest: seq<Segment>, caps: seq<string>)
    requires |caps| == ParamCount(rest)
    ensures ParamCount(Lits(a) + rest) == ParamCount(rest)
    ensures Groups(Lits(a) + rest, caps) == Groups(rest, caps)
    decreases |a|
  {
    if |a| > 0 {
      var segs := Lits(a) + rest;
      assert segs[0] == Lit(a[0]) && segs[1..] == Lits(a[1..]) + rest;
      GroupsOfLiterals(a[1..], rest, caps);
    } else {
      assert Lits(a) + rest == rest;
    }
  }
}

/**
  Route patterns of the HTTP server (transport/http/server.go): how a pattern and a path
  are cut into parts, and which route a path goes to.
  */
module Router {
  import opened Strings

  datatype Part = Literal(value: string) | Param(name: string)

  datatype Route = Route(verb: string, pattern: string, parts: seq<Part>, handler: nat)

  /** Both patterns and paths are cut like this. */
  function Cut(path: string): (parts: seq<string>)
    ensures |parts| >= 1
    ensures forall i :: 0 <= i < |parts| ==> Free(parts[i], '/')
  {
    Split(Trim(path, '/'), '/')
  }

  function ParsePart(raw: string): Part {
    if raw != "" && raw[0] == ':' then Param(raw[1..]) else Literal(raw)
  }

  /** A part as it is written in a pattern. */
  function Written(part: Part): string {
    match part
    case Literal(value) => value
    case Param(name) => [':'] + name
  }

  /** What starts with a colon is a parameter, and its name is the rest; everything else stands for itself. */
  lemma PartIs(raw: string, part: Part)
    ensures Written(ParsePart(raw)) == raw && (ParsePart(raw).Param? <==> [':'] <= raw)
    ensures ParsePart(Written(part)) == part <==> part.Param? || !([':'] <= part.value)
  {
    if raw != "" {
      assert [raw[0]] + raw[1..] == raw;
    }
    if part.Param? {
      assert Written(part)[1..] == part.name;
    }
  }

  function ParseParts(raw: seq<string>): (parts: seq<Part>)
    ensures |parts| == |raw|
  {
    seq(|raw|, i requires 0 <= i < |raw| => ParsePart(raw[i]))
  }

  predicate FitsPart(part: Part, s: string) { part.Literal? ==> part.value == s }

  predicate FitsParts(parts: seq<Part>, path: seq<string>) {
    |parts| == |path| && forall i :: 0 <= i < |parts| ==> FitsPart(parts[i], path[i])
  }

  predicate Fits(route: Route, verb: string, path: seq<string>) {
    route.verb == verb && FitsParts(route.parts, path)
  }

  /** What a matching path binds the parameters to; a repeated name keeps its last value. */
  function Params(parts: seq<Part>, path: seq<string>): map<string, string>
    requires |parts| == |path|
  {
    if parts == [] then map[]
    else
      var n := |parts| - 1;
      var before := Params(parts[..n], path[..n]);
      if parts[n].Param? then before[parts[n].name := path[n]] else before
  }

  predicate Names(parts: seq<Part>, name: string) { exists i :: 0 <= i < |parts| && parts[i] == Param(name) }

  /** The name occurs again after position i. */
  predicate Repeated(parts: seq<Part>, i: nat, name: string)
    requires i < |parts|
  {
    Names(parts[i + 1..], name)
  }

  lemma NamesAppend(parts: seq<Part>, last: Part, name: string)
    ensures Names(parts + [last], name) <==> Names(parts, name) || last == Param(name)
  {
    assert (parts + [last])[|parts|] == last;
    if Names(parts, name) {
      var i :| 0 <= i < |parts| && parts[i] == Param(name);
      assert (parts + [last])[i] == Param(name);
    }
  }

  /** The last occurrence of a parameter gives its value, and only parameters are bound. */
  lemma {:induction false} ParamsAre(parts: seq<Part>, path: seq<string>, name: string)
    requires |parts| == |path|
    ensures name in Params(parts, path) <==> Names(parts, name)
    ensures forall i :: 0 <= i < |parts| && parts[i] == Param(name) && !Repeated(parts, i, name) ==>
              name in Params(parts, path) && Params(parts, path)[name] == path[i]
    decreases |parts|
  {
    if parts != [] {
      var n := |parts| - 1;
      ParamsAre(parts[..n], path[..n], name);
      assert parts == parts[..n] + [parts[n]];
      NamesAppend(parts[..n], parts[n], name);
      forall i | 0 <= i < n
        ensures Repeated(parts, i, name) <==> Repeated(parts[..n], i, name) || parts[n] == Param(name)
      {
        assert parts[i + 1..] == parts[..n][i + 1..] + [parts[n]];
        NamesAppend(parts[..n][i + 1..], parts[n], name);
      }
    }
  }

  // ------------------------------------------------------------------------------
  // Filling a pattern in
  // ------------------------------------------------------------------------------

  function FillPart(part: Part, values: map<string, string>): string {
    match part
    case Literal(value) => value
    case Param(name) => if name in values then values[name] else ""
  }

  function Fill(parts: seq<Part>, values: map<string, string>): (path: seq<string>)
    ensures |path| == |parts|
  {
    seq(|parts|, i requires 0 <= i < |parts| => FillPart(parts[i], values))
  }

  /** A value for every parameter, and for nothing else. */
  ghost predicate Binds(values: map<string, string>, parts: seq<Part>) {
    forall name :: name in values <==> Names(parts, name)
  }

  lemma {:induction false} FilledParams(parts: seq<Part>, values: map<string, string>)
    requires forall name :: Names(parts, name) ==> name in values
    ensures FitsParts(parts, Fill(parts, values))
    ensures forall name :: name in Params(parts, Fill(parts, values)) <==> Names(parts, name)
    ensures forall name :: name in Params(parts, Fill(parts, values)) ==>
              Params(parts, Fill(parts, values))[name] == values[name]
    decreases |parts|
  {
    forall name
      ensures name in Params(parts, Fill(parts, values)) <==> Names(parts, name)
    {
      ParamsAre(parts, Fill(parts, values), name);
    }
    if parts != [] {
      var n := |parts| - 1;
      forall name | Names(parts[..n], name)
        ensures Names(parts, name)
      {
        var i :| 0 <= i < n && parts[..n][i] == Param(name);
        assert parts[i] == Param(name);
      }
      FilledParams(parts[..n], values);
      assert Fill(parts, values)[..n] == Fill(parts[..n], values);
    }
  }

  /** Slashes at either end of a path do not matter. */
  lemma CutIgnoresSlashes(before: string, path: string, after: string)
    requires Only(before, '/') && Only(after, '/')
    ensures Cut(before + path + after) == Cut(path)
  {
    TrimPadded(before, path, after, '/');
  }

  predicate Solid(parts: seq<string>) {
    |parts| == 1 || (|parts| > 1 && parts[0] != "" && parts[|parts| - 1] != "")
  }

  lemma SolidSurvives(parts: seq<string>)
    requires Solid(parts) && forall i :: 0 <= i < |parts| ==> Free(parts[i], '/')
    ensures Cut(Join(parts, '/')) == parts
  {
    JoinEnds(parts, '/');
    TrimNothing(Join(parts, '/'), '/');
    SplitJoin(parts, '/');
  }

  lemma CutIsSolid(path: string)
    ensures Solid(Cut(path))
  {
    TrimEnds(path, '/');
    JoinSplit(Trim(path, '/'), '/');
    JoinEnds(Cut(path), '/');
  }

  /**
    Cutting undoes joining exactly when neither the first nor the last of several parts is
    empty; a single part may be.
    */
  lemma CutJoin(parts: seq<string>)
    requires parts != [] && forall i :: 0 <= i < |parts| ==> Free(parts[i], '/')
    ensures Cut(Join(parts, '/')) == parts <==> Solid(parts)
  {
    CutIsSolid(Join(parts, '/'));
    if Solid(parts) {
      SolidSurvives(parts);
    }
  }

  predicate SlashFree(values: map<string, string>) { forall name :: name in values ==> Free(values[name], '/') }

  predicate NonEmpty(values: map<string, string>) { forall name :: name in values ==> values[name] != "" }

  lemma FilledFree(parts: seq<Part>, raw: seq<string>, values: map<string, string>)
    requires parts == ParseParts(raw) && SlashFree(values)
    requires forall i :: 0 <= i < |raw| ==> Free(raw[i], '/')
    ensures forall i :: 0 <= i < |parts| ==> Free(Fill(parts, values)[i], '/')
  {
    forall i | 0 <= i < |parts|
      ensures Free(Fill(parts, values)[i], '/')
    {
      assert parts[i] == ParsePart(raw[i]);
    }
  }

  /** Non-empty values always leave a path that can be cut again. */
  lemma FilledSolid(pattern: string, values: map<string, string>)
    requires NonEmpty(values) && forall name :: Names(ParseParts(Cut(pattern)), name) ==> name in values
    ensures Solid(Fill(ParseParts(Cut(pattern)), values))
  {
    var raw := Cut(pattern);
    var parts := ParseParts(raw);
    forall i | 0 <= i < |raw|
      ensures raw[i] != "" ==> Fill(parts, values)[i] != ""
    {
      assert parts[i] == ParsePart(raw[i]);
      assert parts[i].Param? ==> Names(parts, parts[i].name);
    }
    CutIsSolid(pattern);
  }

  // ------------------------------------------------------------------------------
  // The object
  // ------------------------------------------------------------------------------

  datatype Match = NoMatch | Matched(index: nat, params: map<string, string>)

  /** The answer of matchRoute: the first route that fits. */
  ghost predicate Answers(routes: seq<Route>, verb: string, path: string, m: Match) {
    match m
    case NoMatch => forall i :: 0 <= i < |routes| ==> !Fits(routes[i], verb, Cut(path))
    case Matched(k, params) =>
      && k < |routes| && Fits(routes[k], verb, Cut(path)) && params == Params(routes[k].parts, Cut(path))
      && forall i :: 0 <= i < k ==> !Fits(routes[i], verb, Cut(path))
  }

  /**
    A path made from the pattern of route k, with any slashes around it, is matched: by the
    first route that fits, and if that is route k, with exactly the values put in.  The
    values hold no slash and leave neither end of the path empty, as non-empty ones do.
    */
  lemma RouteRoundTrip(routes: seq<Route>, k: nat, values: map<string, string>, before: string, after: string, m: Match)
    requires k < |routes| && routes[k].parts == ParseParts(Cut(routes[k].pattern))
    requires Binds(values, routes[k].parts) && SlashFree(values) && Solid(Fill(routes[k].parts, values))
    requires Only(before, '/') && Only(after, '/')
    requires Answers(routes, routes[k].verb, before + Join(Fill(routes[k].parts, values), '/') + after, m)
    ensures m.Matched? && m.index <= k && (m.index == k ==> m.params == values)
  {
    var parts := routes[k].parts;
    var path := Join(Fill(parts, values), '/');
    CutIgnoresSlashes(before, path, after);
    FilledFree(parts, Cut(routes[k].pattern), values);
    SolidSurvives(Fill(parts, values));
    FilledParams(parts, values);
    assert Fits(routes[k], routes[k].verb, Cut(before + path + after));
  }

  class Router {
    var routes: seq<Route>

    /** Every route carries the parts of its own pattern. */
    ghost predicate Valid()
      reads this
    {
      forall i :: 0 <= i < |routes| ==> routes[i].parts == ParseParts(Cut(routes[i].pattern))
    }

    constructor ()
      ensures Valid() && routes == []
    {
      routes := [];
    }

    method RegisterRoute(verb: string, pattern: string, handler: nat)
      requires Valid()
      modifies this
      ensures Valid()
      ensures |routes| == |old(routes)| + 1 && routes[..|old(routes)|] == old(routes)
      ensures routes[|old(routes)|].verb == verb && routes[|old(routes)|].pattern == pattern
      ensures routes[|old(routes)|].handler == handler
    {
      var raw := Cut(pattern);
      var parts: seq<Part> := [];
      for i := 0 to |raw|
        invariant parts == ParseParts(raw)[..i]
      {
        if raw[i] != "" && raw[i][0] == ':' {
          parts := parts + [Param(raw[i][1..])];
        } else {
          parts := parts + [Literal(raw[i])];
        }
      }
      routes := routes + [Route(verb, pattern, parts, handler)];
    }

    /** The inner loop of matchRoute. */
    method MatchParts(parts: seq<Part>, path: seq<string>) returns (matched: bool, params: map<string, string>)
      requires |parts| == |path|
      ensures matched <==> FitsParts(parts, path)
      ensures matched ==> params == Params(parts, path)
    {
      params := map[];
      for i := 0 to |parts|
        invariant FitsParts(parts[..i], path[..i]) && params == Params(parts[..i], path[..i])
      {
        assert parts[..i + 1][..i] == parts[..i] && path[..i + 1][..i] == path[..i];
        match parts[i]
        case Param(name) => params := params[name := path[i]];
        case Literal(value) =>
          if value != path[i] {
            return false, map[];
          }
      }
      assert parts[..|parts|] == parts && path[..|parts|] == path;
      matched := true;
    }

    /** The first route of that verb, with as many parts as the path, whose literal parts are those of the path. */
    method MatchRoute(verb: string, path: string) returns (m: Match)
      ensures Answers(routes, verb, path, m)
      ensures m.Matched? ==>
                var route, parts := routes[m.index], Cut(path);
                && route.verb == verb && |route.parts| == |parts|
                && forall i :: 0 <= i < |parts| ==> route.parts[i].Param? || route.parts[i].value == parts[i]
    {
      var parts := Cut(path);
      for k := 0 to |routes|
        invariant forall i :: 0 <= i < k ==> !Fits(routes[i], verb, parts)
      {
        if routes[k].verb == verb && |routes[k].parts| == |parts| {
          var matched, params := MatchParts(routes[k].parts, parts);
          if matched {
            return Matched(k, params);
          }
        }
      }
      m := NoMatch;
    }
  }
}

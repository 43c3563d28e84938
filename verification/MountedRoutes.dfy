/**
 Mounted HTTP route resolution (internal/discovery/go_routes.go).

 Syntax analysis leaves a graph whose nodes are routers, whose edges are mounts with a
 prefix, and whose nodes carry relative route registrations.  `Walker.Walk` is the
 memoised depth-first search that turns it into absolute endpoints.  Its partner is the
 plain reading of the graph: an endpoint for every path that starts at a root.
 */
module MountedRoutes {
  import opened Ordering

  const RESOLUTION_LIMIT: nat := 100000

  // ---------- joining prefixes ----------

  function TrimSlashSuffix(s: string): string {
    if |s| > 0 && s[|s| - 1] == '/' then s[..|s| - 1] else s
  }

  function TrimSlashPrefix(s: string): string {
    if |s| > 0 && s[0] == '/' then s[1..] else s
  }

  function Join(prefix: string, route: string): string {
    if prefix == "" || prefix == "/" then route
    else if route == "" then prefix
    else TrimSlashSuffix(prefix) + "/" + TrimSlashPrefix(route)
  }

  predicate EndsInSlash(s: string) {
    |s| > 0 && s[|s| - 1] == '/'
  }

  /** The prefixes that a mount below them ignores. */
  predicate IsBlank(s: string) {
    s == "" || s == "/"
  }

  /** What a mount with a prefix of its own sees of the prefix above it. */
  function Base(s: string): string {
    if IsBlank(s) then "" else TrimSlashSuffix(s)
  }

  /** Mounting never shortens a prefix, and lengthens it unless the mount is blank. */
  lemma JoinGrows(prefix: string, s: string)
    ensures |Base(Join(prefix, s))| >= |Base(prefix)| + if IsBlank(s) then 0 else 1
    ensures |Join(prefix, s)| >= |Base(prefix)|
  {
    if !IsBlank(prefix) && s != "" {
      var head, tail := TrimSlashSuffix(prefix), TrimSlashPrefix(s);
      TrimSuffixOfAppend(head, "/" + tail);
      assert head + "/" + tail == head + ("/" + tail);
    }
  }

  lemma TrimSuffixOfAppend(x: string, y: string)
    requires y != ""
    ensures TrimSlashSuffix(x + y) == x + TrimSlashSuffix(y)
  {
    assert (x + y)[..|x + y| - 1] == x + y[..|y| - 1];
  }

  lemma TrimPrefixOfAppend(x: string, y: string)
    requires x != ""
    ensures TrimSlashPrefix(x + y) == TrimSlashPrefix(x) + y
  {
    assert (x + y)[1..] == x[1..] + y;
  }

  lemma TrimsCommute(b: string)
    requires !IsBlank(b)
    ensures TrimSlashSuffix(TrimSlashPrefix(b)) == TrimSlashPrefix(TrimSlashSuffix(b))
  {
    if b[0] == '/' && b[|b| - 1] == '/' {
      assert b[1..][..|b| - 2] == b[..|b| - 1][1..];
    }
  }

  lemma JoinLeft(a: string, b: string, c: string)
    requires !IsBlank(a) && !IsBlank(b) && c != ""
    ensures Join(Join(a, b), c)
                == TrimSlashSuffix(a) + "/" + TrimSlashSuffix(TrimSlashPrefix(b)) + "/" + TrimSlashPrefix(c)
  {
    TrimSuffixOfAppend(TrimSlashSuffix(a) + "/", TrimSlashPrefix(b));
  }

  lemma JoinRight(a: string, b: string, c: string)
    requires !IsBlank(a) && !IsBlank(b) && c != ""
    ensures Join(a, Join(b, c))
                == TrimSlashSuffix(a) + "/" + TrimSlashPrefix(TrimSlashSuffix(b)) + "/" + TrimSlashPrefix(c)
  {
    var tail := "/" + TrimSlashPrefix(c);
    var core := TrimSlashPrefix(TrimSlashSuffix(b));
    TrimPrefixOfAppend(TrimSlashSuffix(b), tail);
    Regroup(TrimSlashSuffix(b), "/", TrimSlashPrefix(c));
    Regroup(TrimSlashSuffix(a) + "/" + core, "/", TrimSlashPrefix(c));
    Regroup(TrimSlashSuffix(a) + "/", core, tail);
  }

  lemma Regroup(x: string, y: string, z: string)
    ensures x + y + z == x + (y + z)
  {
  }

  lemma JoinAssociativeProper(a: string, b: string, c: string)
    requires !IsBlank(a) && !IsBlank(b) && c != ""
    ensures Join(Join(a, b), c) == Join(a, Join(b, c))
  {
    TrimsCommute(b);
    JoinLeft(a, b, c);
    JoinRight(a, b, c);
  }

  /** Joining is associative in every case but one: a "/" mount with nothing below it. */
  lemma JoinAssociative(a: string, b: string, c: string)
    ensures Join(Join(a, b), c) == Join(a, Join(b, c))
       <==> !(b == "/" && c == "" && a != "" && !EndsInSlash(a))
  {
    if a != "" && a != "/" && b != "" && c != "" {
      if b == "/" {
        var head := TrimSlashSuffix(a);
        TrimSuffixOfAppend(head, "/");
        assert head + "/" + TrimSlashPrefix(b) == head + "/";
      } else {
        JoinAssociativeProper(a, b, c);
      }
    } else if a != "" && a != "/" && b == "/" {
      assert Join(a, b) == TrimSlashSuffix(a) + "/";
      if EndsInSlash(a) { assert a == a[..|a| - 1] + "/"; }
    }
  }

  // ---------- the router graph ----------

  datatype Edge = Edge(child: string, prefix: string)

  datatype Registration = Registration(httpMethod: string, path: string, source: string)

  /** `unresolved` holds the routers whose own prefix is computed dynamically. */
  datatype Graph = Graph(
    edges: map<string, seq<Edge>>,
    routes: map<string, seq<Registration>>,
    unresolved: set<string>)
  {
    function EdgesOf(node: string): seq<Edge> {
      if node in edges then edges[node] else []
    }

    function RoutesOf(node: string): seq<Registration> {
      if node in routes then routes[node] else []
    }

    ghost function Nodes(): set<string> {
      edges.Keys + routes.Keys + (set n, e | n in edges && e in edges[n] :: e.child)
    }

    /** Nodes are named after file paths and Go identifiers, which hold no NUL. */
    ghost predicate NulFree() {
      forall n | n in Nodes() :: '\0' !in n
    }

    /** What `edge` keeps: no empty name, no self mount, no repeated mount. */
    ghost predicate WellFormed() {
      && (forall n | n in edges :: n != "" && forall e | e in edges[n] :: e.child != "" && e.child != n)
      && (forall n, i, j | n in edges && 0 <= i < j < |edges[n]| :: edges[n][i] != edges[n][j])
    }
  }

  /** The builder side: `edge` and `route` fill the maps in place. */
  class GraphBuilder {
    var graph: Graph

    constructor ()
      ensures graph == Graph(map[], map[], {}) && graph.WellFormed()
    {
      graph := Graph(map[], map[], {});
    }

    method AddEdge(parent: string, child: string, prefix: string)
      requires graph.WellFormed()
      modifies this
      ensures graph.WellFormed()
      ensures graph.routes == old(graph.routes) && graph.unresolved == old(graph.unresolved)
      ensures forall n | n != parent :: graph.EdgesOf(n) == old(graph).EdgesOf(n)
      ensures parent == "" || child == "" || parent == child || Edge(child, prefix) in old(graph).EdgesOf(parent)
              ==> graph == old(graph)
      ensures parent != "" && child != "" && parent != child && Edge(child, prefix) !in old(graph).EdgesOf(parent)
              ==> graph.EdgesOf(parent) == old(graph).EdgesOf(parent) + [Edge(child, prefix)]
    {
      if parent == "" || child == "" || parent == child {
        return;
      }
      var edge := Edge(child, prefix);
      var existing := graph.EdgesOf(parent);
      for i := 0 to |existing|
        invariant edge !in existing[..i]
        invariant graph == old(graph)
      {
        if existing[i] == edge {
          return;
        }
      }
      graph := graph.(edges := graph.edges[parent := existing + [edge]]);
    }
  }

  // ---------- the plain reading: every path from a root ----------

  /** A path through the graph, read from its end: the start, then one mount at a time. */
  datatype Path = At(node: string) | Then(before: Path, edge: Edge)
  {
    function Start(): string {
      match this
      case At(n) => n
      case Then(p, _) => p.Start()
    }

    function End(): string {
      match this
      case At(n) => n
      case Then(_, e) => e.child
    }

    /** The prefix accumulated along the path. */
    function Prefix(): string {
      match this
      case At(_) => ""
      case Then(p, e) => Join(p.Prefix(), e.prefix)
    }

    function Nodes(): set<string> {
      match this
      case At(n) => {n}
      case Then(p, e) => p.Nodes() + {e.child}
    }

    predicate In(g: Graph) {
      match this
      case At(_) => true
      case Then(p, e) => p.In(g) && e in g.EdgesOf(p.End())
    }

    /** No node of the path has an unresolved prefix. */
    predicate Resolved(g: Graph) {
      match this
      case At(n) => n !in g.unresolved
      case Then(p, e) => p.Resolved(g) && e.child !in g.unresolved
    }

    /** No node is met twice. */
    predicate Simple() {
      match this
      case At(_) => true
      case Then(p, e) => p.Simple() && e.child !in p.Nodes()
    }

    /** Every mount of the path is an alias, which adds no prefix. */
    predicate Aliases() {
      match this
      case At(_) => true
      case Then(p, e) => p.Aliases() && e.prefix == ""
    }

    /** Every mount of the path has the prefix "" or "/". */
    predicate Blank() {
      match this
      case At(_) => true
      case Then(p, e) => p.Blank() && IsBlank(e.prefix)
    }

    function Append(more: Path): Path {
      match more
      case At(_) => this
      case Then(p, e) => Then(Append(p), e)
    }
  }

  ghost predicate IsRoot(g: Graph, node: string) {
    (node in g.routes || node in g.edges) && !HasIncoming(g, node)
  }

  ghost predicate HasIncoming(g: Graph, node: string) {
    exists n, e :: n in g.edges && e in g.edges[n] && e.child == node
  }

  function EndpointAt(prefix: string, route: Registration): Registration {
    route.(path := Join(prefix, route.path))
  }

  /** A path from a root over resolved nodes. */
  ghost predicate IsRootPath(g: Graph, path: Path) {
    IsRoot(g, path.Start()) && path.In(g) && path.Resolved(g)
  }

  ghost predicate Serves(g: Graph, path: Path, endpoint: Registration) {
    && IsRootPath(g, path)
    && exists r | r in g.RoutesOf(path.End()) :: endpoint == EndpointAt(path.Prefix(), r)
  }

  /** The endpoints of the graph when every root path counts. */
  ghost predicate Reachable(g: Graph, endpoint: Registration) {
    exists path: Path :: Serves(g, path, endpoint)
  }

  /** The endpoints of the graph when only paths without a repeated router count. */
  ghost predicate SimplyReachable(g: Graph, endpoint: Registration) {
    exists path: Path :: path.Simple() && Serves(g, path, endpoint)
  }

  ghost predicate IsCycle(g: Graph, c: Path) {
    c.Then? && c.In(g) && c.Resolved(g) && c.Start() == c.End()
  }

  ghost predicate LeadsTo(g: Graph, path: Path, r: Registration) {
    path.In(g) && path.Resolved(g) && r in g.RoutesOf(path.End())
  }

  /** Some route lies below the node. */
  ghost predicate Productive(g: Graph, node: string) {
    exists path: Path, r :: path.Start() == node && LeadsTo(g, path, r)
  }

  /** Every cycle that a root reaches and that leads to a route is made of blank mounts. */
  ghost predicate CyclesAddNothing(g: Graph) {
    forall path: Path, c: Path | IsRootPath(g, path) && IsCycle(g, c) && c.Start() == path.End()
        && Productive(g, path.End()) :: c.Blank()
  }

  /** Going round `c` after `path` adds a slash at the end of the prefix, and `more` carries it
      on over aliases. */
  ghost predicate GainsSlash(g: Graph, path: Path, c: Path, more: Path) {
    && IsRootPath(g, path) && !IsBlank(path.Prefix()) && !EndsInSlash(path.Prefix())
    && IsCycle(g, c) && c.Start() == path.End() && path.Append(c).Prefix() == path.Prefix() + "/"
    && more.Start() == path.End() && more.In(g) && more.Resolved(g) && more.Aliases()
  }

  ghost predicate SlashGained(g: Graph, node: string, prefix: string) {
    exists path, c, more :: GainsSlash(g, path, c, more) && more.End() == node && path.Prefix() == prefix
  }

  /** A route without a path of its own, served under a prefix with a slash from a cycle. */
  ghost predicate GainedEndpoint(g: Graph, endpoint: Registration) {
    exists n, q, r :: SlashGained(g, n, q) && r in g.RoutesOf(n) && r.path == "" && endpoint == r.(path := q + "/")
  }

  lemma {:induction false} SlashIsGained(g: Graph, path: Path, c: Path, more: Path)
    requires GainsSlash(g, path, c, more)
    ensures SlashGained(g, more.End(), path.Prefix())
  {
  }

  /** Every cycle is made of aliases (`With`, `Group`, plain assignment).
      A graph without cycles qualifies. */
  ghost predicate CyclesAreAliases(g: Graph) {
    forall c: Path | IsCycle(g, c) :: c.Aliases()
  }

  lemma {:induction false} AppendIsPath(g: Graph, path: Path, more: Path)
    requires more.Start() == path.End() && path.In(g) && more.In(g) && path.Resolved(g) && more.Resolved(g)
    ensures var all := path.Append(more);
            all.Start() == path.Start() && all.End() == more.End() && all.In(g) && all.Resolved(g)
  {
    if more.Then? { AppendIsPath(g, path, more.before); }
  }

  lemma {:induction false} AliasesAreBlank(path: Path)
    requires path.Aliases()
    ensures path.Blank()
  {
    if path.Then? { AliasesAreBlank(path.before); }
  }

  /** Walking along aliases leaves every prefix that is not blank alone. */
  lemma {:induction false} AliasesKeepPrefix(path: Path, aliases: Path)
    requires aliases.Aliases() && !IsBlank(path.Prefix())
    ensures path.Append(aliases).Prefix() == path.Prefix()
  {
    if aliases.Then? { AliasesKeepPrefix(path, aliases.before); }
  }

  /** Walking along blank mounts adds one slash at most. */
  lemma {:induction false} BlankAddsSlash(path: Path, more: Path)
    requires more.Blank()
    ensures var q, p := path.Prefix(), path.Append(more).Prefix();
            p == q || (IsBlank(q) && IsBlank(p)) || (!IsBlank(q) && !EndsInSlash(q) && p == q + "/")
  {
    if more.Then? {
      BlankAddsSlash(path, more.before);
      var p := path.Append(more.before).Prefix();
      if EndsInSlash(p) { assert p[..|p| - 1] + "/" + "" == p; }
      assert !EndsInSlash(p) ==> p + "/" + "" == p + "/";
    }
  }

  lemma AliasCyclesAreHarmless(g: Graph)
    requires CyclesAreAliases(g)
    ensures CyclesAddNothing(g) && forall e :: !GainedEndpoint(g, e)
  {
    forall path: Path, c: Path | IsRootPath(g, path) && IsCycle(g, c) && c.Start() == path.End()
        && Productive(g, path.End())
      ensures c.Blank()
    {
      AliasesAreBlank(c);
    }
    forall path, c, more | GainsSlash(g, path, c, more) ensures false {
      AliasesKeepPrefix(path, c);
    }
  }

  lemma GainedIsReachable(g: Graph, e: Registration)
    requires GainedEndpoint(g, e)
    ensures Reachable(g, e)
  {
    var n, q, r :| SlashGained(g, n, q) && r in g.RoutesOf(n) && r.path == "" && e == r.(path := q + "/");
    var path, c, more :| GainsSlash(g, path, c, more) && more.End() == n && path.Prefix() == q;
    AppendIsPath(g, path, c);
    AppendIsPath(g, path.Append(c), more);
    AliasesKeepPrefix(path.Append(c), more);
    assert EndpointAt(q + "/", r) == e;
    assert Serves(g, path.Append(c).Append(more), e);
  }

  // ---------- cycles that add a prefix ----------

  lemma {:induction false} AppendGrows(path: Path, more: Path)
    ensures |Base(path.Append(more).Prefix())| >= |Base(path.Prefix())| + if more.Blank() then 0 else 1
  {
    if more.Then? {
      AppendGrows(path, more.before);
      JoinGrows(path.Append(more.before).Prefix(), more.edge.prefix);
    }
  }

  function Rounds(path: Path, c: Path, n: nat): Path {
    if n == 0 then path else Rounds(path, c, n - 1).Append(c)
  }

  lemma {:induction false} RoundsGrow(g: Graph, path: Path, c: Path, n: nat)
    requires IsRootPath(g, path) && IsCycle(g, c) && c.Start() == path.End() && !c.Blank()
    ensures IsRootPath(g, Rounds(path, c, n)) && Rounds(path, c, n).End() == path.End()
    ensures |Base(Rounds(path, c, n).Prefix())| >= n
  {
    if n > 0 {
      RoundsGrow(g, path, c, n - 1);
      AppendIsPath(g, Rounds(path, c, n - 1), c);
      AppendGrows(Rounds(path, c, n - 1), c);
    }
  }

  function Longest(found: seq<Registration>): (n: nat)
    ensures forall e | e in found :: |e.path| <= n
  {
    if found == [] then 0
    else
      assert found == [found[0]] + found[1..];
      var n := Longest(found[1..]);
      if |found[0].path| > n then |found[0].path| else n
  }

  /** The endpoint itself, or the one without the slash at its end. */
  predicate FoundUpToSlash(found: seq<Registration>, e: Registration) {
    e in found || (EndsInSlash(e.path) && e.(path := TrimSlashSuffix(e.path)) in found)
  }

  lemma EndpointBelow(g: Graph, path: Path, more: Path, r: Registration) returns (e: Registration)
    requires IsRootPath(g, path) && more.Start() == path.End() && LeadsTo(g, more, r)
    ensures Reachable(g, e) && |e.path| >= |Base(path.Prefix())|
  {
    var all := path.Append(more);
    AppendIsPath(g, path, more);
    AppendGrows(path, more);
    JoinGrows(all.Prefix(), r.path);
    e := EndpointAt(all.Prefix(), r);
    assert Serves(g, all, e);
  }

  /** A cycle that adds a prefix, is reached from a root and leads to a route serves endpoints
      without end, so no finite list holds them all. */
  lemma PrefixedCyclesLoseRoutes(g: Graph, found: seq<Registration>)
    requires !CyclesAddNothing(g)
    ensures exists e :: Reachable(g, e) && !FoundUpToSlash(found, e)
  {
    var path: Path, c: Path :|
        IsRootPath(g, path) && IsCycle(g, c) && c.Start() == path.End() && Productive(g, path.End()) && !c.Blank();
    var more: Path, r :| more.Start() == path.End() && LeadsTo(g, more, r);
    var n := Longest(found) + 2;
    RoundsGrow(g, path, c, n);
    var e := EndpointBelow(g, Rounds(path, c, n), more, r);
    assert Reachable(g, e) && !FoundUpToSlash(found, e);
  }

  function SlashCycle(): Graph {
    Graph(
      map["main:r" := [Edge("api:c", "/x")], "api:c" := [Edge("sub:n", "/")], "sub:n" := [Edge("api:c", "")]],
      map["api:c" := [Registration("GET", "", "api.go")]],
      {})
  }

  lemma {:induction false} SimplePathsOfSlashCycle(path: Path)
    requires var g := SlashCycle(); IsRoot(g, path.Start()) && path.In(g) && path.Simple()
    ensures path.End() == "api:c" ==> path.Prefix() == "/x"
    ensures path.End() != "main:r" ==> "api:c" in path.Nodes()
    ensures path.End() in path.Nodes()
  {
    var g := SlashCycle();
    assert g.edges["main:r"][0].child == "api:c" && g.edges["api:c"][0].child == "sub:n";
    if path.Then? {
      var p := path.before;
      SimplePathsOfSlashCycle(p);
      assert p.End() == "main:r" ==> p.At? by {
        if p.Then? { assert p.edge in g.EdgesOf(p.before.End()); }
      }
      assert path.edge in g.EdgesOf(p.End());
    }
  }

  lemma SlashCycleGains()
    ensures SlashGained(SlashCycle(), "api:c", "/x")
  {
    var g := SlashCycle();
    var onC := Then(At("main:r"), Edge("api:c", "/x"));
    var below := Then(At("api:c"), Edge("sub:n", "/"));
    var round := Then(below, Edge("api:c", ""));
    assert onC.Prefix() == "/x" && onC.Append(below).Prefix() == Join("/x", "/") == "/x" + "/";
    assert onC.Append(round).Prefix() == Join("/x/", "") == "/x" + "/";
    SlashIsGained(g, onC, round, At("api:c"));
  }

  /** A "/" mount on a cycle does add an endpoint, "/x/" beside "/x", and no simple path serves it. */
  lemma SlashCyclesLoseRoutes()
    ensures var e := Registration("GET", "/x/", "api.go");
                GainedEndpoint(SlashCycle(), e) && !SimplyReachable(SlashCycle(), e)
  {
    var g, e := SlashCycle(), Registration("GET", "/x/", "api.go");
    SlashCycleGains();
    assert g.RoutesOf("api:c")[0].(path := "/x" + "/") == e;
    forall path: Path | path.Simple() && Serves(g, path, e) ensures false {
      SimplePathsOfSlashCycle(path);
    }
  }

  // ---------- flattening ----------

  /** Mounting a router that mounts another equals mounting the joined prefix once, in every
      case but the one where `Join` is not associative. */
  lemma {:induction false} MountsFlatten(path: Path, outer: Edge, inner: Edge)
    ensures Then(Then(path, outer), inner).Prefix()
                == Then(path, Edge(inner.child, Join(outer.prefix, inner.prefix))).Prefix()
       <==> !(outer.prefix == "/" && inner.prefix == "" && path.Prefix() != "" && !EndsInSlash(path.Prefix()))
  {
    JoinAssociative(path.Prefix(), outer.prefix, inner.prefix);
  }

  // ---------- the walk ----------

  function Key(node: string, prefix: string): string {
    node + "\0" + prefix
  }

  lemma KeyIsInjective(n: string, p: string, m: string, q: string)
    requires '\0' !in n && '\0' !in m && Key(n, p) == Key(m, q)
    ensures n == m && p == q
  {
    var i := if |n| <= |m| then |n| else |m|;
    assert Key(n, p)[i] == (n + "\0")[i] && Key(m, q)[i] == (m + "\0")[i];
    assert |n| == |m|;
    assert n == Key(n, p)[..|n|] && m == Key(m, q)[..|m|];
    assert p == Key(n, p)[|n| + 1..] && q == Key(m, q)[|m| + 1..];
  }

  lemma {:induction false} SubsetIsNoLarger<T>(a: set<T>, b: set<T>)
    requires a <= b
    ensures |a| <= |b|
  {
    if a != {} {
      var x :| x in a;
      SubsetIsNoLarger(a - {x}, b - {x});
    }
  }

  /** Entering the node under `q` makes entering it under `p` superfluous, but for a slash that a
      cycle adds. */
  ghost predicate Stands(g: Graph, node: string, q: string, p: string) {
    q == p || (IsBlank(q) && IsBlank(p)) || (p == q + "/" && SlashGained(g, node, q))
  }

  ghost predicate Entered(g: Graph, visited: set<string>, node: string, prefix: string) {
    exists q :: Stands(g, node, q, prefix) && Key(node, q) in visited
  }

  /** The pair needs no further work: unresolved, without routes below, or entered. */
  ghost predicate Handled(g: Graph, visited: set<string>, node: string, prefix: string) {
    node in g.unresolved || !Productive(g, node) || Entered(g, visited, node, prefix)
  }

  /** What stands for a prefix stands for it below a further mount. */
  lemma StandsBelow(g: Graph, node: string, q: string, p: string, e: Edge)
    requires Stands(g, node, q, p) && e in g.EdgesOf(node) && e.child !in g.unresolved
    ensures Stands(g, e.child, Join(q, e.prefix), Join(p, e.prefix))
  {
    if p == q + "/" && SlashGained(g, node, q) {
      var path, c, more :| GainsSlash(g, path, c, more) && more.End() == node && path.Prefix() == q;
      assert p[..|p| - 1] == q;
      if e.prefix == "" {
        var further := Then(more, e);
        SlashIsGained(g, path, c, further);
      }
    }
  }

  lemma StandsIsTransitive(g: Graph, node: string, a: string, b: string, c: string)
    requires Stands(g, node, a, b) && Stands(g, node, b, c)
    ensures Stands(g, node, a, c)
  {
    if SlashGained(g, node, b) {
      var path, round, more :| GainsSlash(g, path, round, more) && more.End() == node && path.Prefix() == b;
    }
  }

  /** A route is served alike under a prefix and under what stands for it, but for the slash. */
  lemma StandsForRoute(g: Graph, node: string, q: string, p: string, r: Registration)
    requires Stands(g, node, q, p) && r in g.RoutesOf(node)
    ensures var e := EndpointAt(p, r);
            e == EndpointAt(q, r)
            || (GainedEndpoint(g, e) && EndsInSlash(e.path) && EndpointAt(q, r) == e.(path := TrimSlashSuffix(e.path)))
  {
    if p == q + "/" && SlashGained(g, node, q) {
      var path, c, more :| GainsSlash(g, path, c, more) && more.End() == node && path.Prefix() == q;
      assert p[..|p| - 1] == q;
    }
  }

  /** Whatever leads to a route, so does the node before it. */
  lemma ProductiveAbove(g: Graph, node: string, e: Edge)
    requires e in g.EdgesOf(node) && node !in g.unresolved && e.child !in g.unresolved && Productive(g, e.child)
    ensures Productive(g, node)
  {
    var more: Path, r :| more.Start() == e.child && LeadsTo(g, more, r);
    var first := Then(At(node), e);
    AppendIsPath(g, first, more);
    assert LeadsTo(g, first.Append(more), r);
  }

  /** Everything the node offers under this prefix has been reported or handled. */
  ghost predicate Closed(g: Graph, visited: set<string>, found: seq<Registration>,
                         node: string, prefix: string)
  {
    && (forall r | r in g.RoutesOf(node) :: EndpointAt(prefix, r) in found)
    && (forall e | e in g.EdgesOf(node) :: Handled(g, visited, e.child, Join(prefix, e.prefix)))
  }

  /** The nodes being visited are exactly the nodes of the path before its end; they are
      distinct and resolved, and each was entered under the prefix of its part of the path. */
  ghost predicate Trail(g: Graph, visiting: set<string>, visited: set<string>, path: Path) {
    match path
    case At(n) => IsRoot(g, n) && visiting == {}
    case Then(p, e) =>
      && p.End() in visiting && p.End() !in g.unresolved
      && e in g.EdgesOf(p.End())
      && Key(p.End(), p.Prefix()) in visited
      && Trail(g, visiting - {p.End()}, visited, p)
  }

  lemma {:induction false} TrailIsPath(g: Graph, visiting: set<string>, visited: set<string>, path: Path)
    requires Trail(g, visiting, visited, path)
    ensures IsRoot(g, path.Start()) && path.In(g)
    ensures path.Nodes() == visiting + {path.End()}
    ensures path.End() in g.Nodes()
    ensures path.End() !in g.unresolved ==> path.Resolved(g)
    ensures path.End() !in visiting ==> path.Simple()
  {
    if path.Then? { TrailIsPath(g, visiting - {path.before.End()}, visited, path.before); }
  }

  lemma {:induction false} TrailGrows(g: Graph, visiting: set<string>, visited: set<string>, path: Path,
                                      visited': set<string>)
    requires Trail(g, visiting, visited, path) && visited <= visited'
    ensures Trail(g, visiting, visited', path)
  {
    if path.Then? { TrailGrows(g, visiting - {path.before.End()}, visited, path.before, visited'); }
  }

  /** A node met a second time closes a cycle at the end of the trail. */
  lemma {:induction false} FindCycle(g: Graph, visiting: set<string>, visited: set<string>, path: Path,
                                     node: string) returns (head: Path, cycle: Path)
    requires Trail(g, visiting, visited, path) && node in visiting
    ensures cycle.Then? && cycle.In(g) && cycle.Start() == node && cycle.End() == path.End()
    ensures path.End() !in g.unresolved ==> cycle.Resolved(g)
    ensures path == head.Append(cycle) && head.End() == node && IsRootPath(g, head)
    ensures Key(node, head.Prefix()) in visited
  {
    var p := path.before;
    if p.End() == node {
      head, cycle := p, Then(At(node), path.edge);
      TrailIsPath(g, visiting - {p.End()}, visited, p);
    } else {
      var rest;
      head, rest := FindCycle(g, visiting - {p.End()}, visited, p, node);
      cycle := Then(rest, path.edge);
    }
  }

  /** A node cut because it is being visited was entered under a prefix that stands for this
      one, when cycles add nothing. */
  lemma {:induction false} CutNodeIsHandled(g: Graph, visiting: set<string>, visited: set<string>, path: Path)
    requires CyclesAddNothing(g) && Trail(g, visiting, visited, path) && path.End() in visiting
    ensures Handled(g, visited, path.End(), path.Prefix())
  {
    var node := path.End();
    if node !in g.unresolved && Productive(g, node) {
      var head, cycle := FindCycle(g, visiting, visited, path, node);
      assert IsCycle(g, cycle);
      BlankAddsSlash(head, cycle);
      if path.Prefix() == head.Prefix() + "/" && !IsBlank(head.Prefix()) && !EndsInSlash(head.Prefix()) {
        SlashIsGained(g, head, cycle, At(node));
      }
      assert Stands(g, node, head.Prefix(), path.Prefix());
    }
  }

  lemma {:induction false} TrailEndIsSimplyReachable(g: Graph, visiting: set<string>, visited: set<string>, path: Path,
                                                     r: Registration)
    requires Trail(g, visiting, visited, path)
    requires path.End() !in visiting && path.End() !in g.unresolved
    requires r in g.RoutesOf(path.End())
    ensures SimplyReachable(g, EndpointAt(path.Prefix(), r))
  {
    TrailIsPath(g, visiting, visited, path);
    assert Serves(g, path, EndpointAt(path.Prefix(), r));
  }

  /** Every pair visited since `before` is closed. */
  ghost predicate AllClosed(g: Graph, before: set<string>, visited: set<string>, found: seq<Registration>) {
    forall n, p | '\0' !in n && Key(n, p) in visited && Key(n, p) !in before :: Closed(g, visited, found, n, p)
  }

  /** The first `k` children have been handled. */
  ghost predicate ChildrenHandled(g: Graph, visited: set<string>, edges: seq<Edge>, prefix: string, k: nat)
    requires k <= |edges|
  {
    forall j | 0 <= j < k :: Handled(g, visited, edges[j].child, Join(prefix, edges[j].prefix))
  }

  /** What is handled stays handled, as the walk goes on. */
  lemma HandledIsStable(g: Graph, visited: set<string>, later: set<string>, n: string, p: string)
    requires visited <= later && Handled(g, visited, n, p)
    ensures Handled(g, later, n, p)
  {
    if Entered(g, visited, n, p) {
      var q :| Stands(g, n, q, p) && Key(n, q) in visited;
      assert Key(n, q) in later;
    }
  }

  lemma AllClosedComposes(g: Graph, a: set<string>, b: set<string>, c: set<string>,
                          found: seq<Registration>, found': seq<Registration>)
    requires b <= c && forall e | e in found :: e in found'
    requires AllClosed(g, a, b, found) && AllClosed(g, b, c, found')
    ensures AllClosed(g, a, c, found')
  {
    forall n, p | '\0' !in n && Key(n, p) in c && Key(n, p) !in a ensures Closed(g, c, found', n, p) {
      if Key(n, p) in b {
        assert Closed(g, b, found, n, p);
        forall e | e in g.EdgesOf(n) ensures Handled(g, c, e.child, Join(p, e.prefix)) {
          HandledIsStable(g, b, c, e.child, Join(p, e.prefix));
        }
      }
    }
  }

  lemma ChildrenStayHandled(g: Graph, visited: set<string>, later: set<string>, edges: seq<Edge>, prefix: string,
                            k: nat)
    requires k < |edges| && visited <= later
    requires ChildrenHandled(g, visited, edges, prefix, k)
    requires Handled(g, later, edges[k].child, Join(prefix, edges[k].prefix))
    ensures ChildrenHandled(g, later, edges, prefix, k + 1)
  {
    forall j | 0 <= j < k ensures Handled(g, later, edges[j].child, Join(prefix, edges[j].prefix)) {
      HandledIsStable(g, visited, later, edges[j].child, Join(prefix, edges[j].prefix));
    }
  }

  /** When every child is handled, the node that was entered is closed too. */
  lemma EnteredIsClosed(g: Graph, before: set<string>, visited: set<string>, found: seq<Registration>,
                        node: string, prefix: string)
    requires '\0' !in node && Key(node, prefix) in visited
    requires AllClosed(g, before + {Key(node, prefix)}, visited, found)
    requires ChildrenHandled(g, visited, g.EdgesOf(node), prefix, |g.EdgesOf(node)|)
    requires forall r | r in g.RoutesOf(node) :: EndpointAt(prefix, r) in found
    ensures AllClosed(g, before, visited, found)
    ensures Handled(g, visited, node, prefix)
  {
    assert Stands(g, node, prefix, prefix);
    assert Closed(g, visited, found, node, prefix);
    forall n, p | '\0' !in n && Key(n, p) in visited && Key(n, p) !in before ensures Closed(g, visited, found, n, p) {
      if Key(n, p) == Key(node, prefix) { KeyIsInjective(n, p, node, prefix); }
    }
  }

  lemma {:induction false} PathEndIsNode(g: Graph, path: Path)
    requires IsRoot(g, path.Start()) && path.In(g)
    ensures path.End() in g.Nodes()
  {
    if path.Then? { PathEndIsNode(g, path.before); }
  }

  ghost predicate RootsHandled(g: Graph, visited: set<string>) {
    forall r | IsRoot(g, r) :: Handled(g, visited, r, "")
  }

  /** When the roots are handled and everything visited is closed, every root path that leads to
      a route ends in a node entered under a prefix that stands for the path's. */
  lemma {:induction false} EveryPathIsWalked(g: Graph, visited: set<string>, found: seq<Registration>, path: Path)
    requires g.NulFree() && AllClosed(g, {}, visited, found) && RootsHandled(g, visited)
    requires IsRootPath(g, path) && Productive(g, path.End())
    ensures Entered(g, visited, path.End(), path.Prefix())
  {
    if path.Then? {
      var before, edge := path.before, path.edge;
      EndIsResolved(g, before);
      ProductiveAbove(g, before.End(), edge);
      EveryPathIsWalked(g, visited, found, before);
      PathEndIsNode(g, before);
      var q :| Stands(g, before.End(), q, before.Prefix()) && Key(before.End(), q) in visited;
      assert Closed(g, visited, found, before.End(), q);
      StandsBelow(g, before.End(), q, before.Prefix(), edge);
      assert Handled(g, visited, edge.child, Join(q, edge.prefix));
      var q2 :| Stands(g, edge.child, q2, Join(q, edge.prefix)) && Key(edge.child, q2) in visited;
      StandsIsTransitive(g, edge.child, q2, Join(q, edge.prefix), path.Prefix());
    }
  }

  /** So every endpoint has been reported, but for slashes that cycles add. */
  lemma EndpointIsFound(g: Graph, visited: set<string>, found: seq<Registration>, e: Registration)
    requires g.NulFree() && AllClosed(g, {}, visited, found) && RootsHandled(g, visited) && Reachable(g, e)
    ensures e in found || (GainedEndpoint(g, e) && FoundUpToSlash(found, e))
  {
    var path: Path :| Serves(g, path, e);
    var node := path.End();
    var r :| r in g.RoutesOf(node) && e == EndpointAt(path.Prefix(), r);
    assert LeadsTo(g, At(node), r) by { EndIsResolved(g, path); }
    EveryPathIsWalked(g, visited, found, path);
    PathEndIsNode(g, path);
    var q :| Stands(g, node, q, path.Prefix()) && Key(node, q) in visited;
    assert Closed(g, visited, found, node, q);
    StandsForRoute(g, node, q, path.Prefix(), r);
  }

  lemma {:induction false} EndIsResolved(g: Graph, path: Path)
    requires path.Resolved(g)
    ensures path.End() !in g.unresolved
  {
  }

  ghost predicate FindsAllUpToSlash(g: Graph, found: seq<Registration>) {
    forall e | Reachable(g, e) :: FoundUpToSlash(found, e)
  }

  ghost predicate FindsExactly(g: Graph, found: seq<Registration>) {
    forall e :: e in found <==> Reachable(g, e)
  }

  /** The exact conditions under which a finished walk has found every endpoint; of the graph alone,
      it is enough that no cycle gives an endpoint a slash, and necessary that paths without
      repetition serve those that get one. */
  lemma FoundExactly(g: Graph, visited: set<string>, found: seq<Registration>)
    requires g.NulFree() && forall e | e in found :: SimplyReachable(g, e)
    requires CyclesAddNothing(g) ==> AllClosed(g, {}, visited, found) && RootsHandled(g, visited)
    ensures FindsAllUpToSlash(g, found) <==> CyclesAddNothing(g)
    ensures FindsExactly(g, found) <==> CyclesAddNothing(g) && forall e | GainedEndpoint(g, e) :: e in found
    ensures CyclesAddNothing(g) && (forall e :: !GainedEndpoint(g, e)) ==> FindsExactly(g, found)
    ensures FindsExactly(g, found) ==> CyclesAddNothing(g) && forall e | GainedEndpoint(g, e) :: SimplyReachable(g, e)
  {
    if CyclesAddNothing(g) {
      forall e | Reachable(g, e) ensures e in found || (GainedEndpoint(g, e) && FoundUpToSlash(found, e)) {
        EndpointIsFound(g, visited, found, e);
      }
      forall e | GainedEndpoint(g, e) ensures Reachable(g, e) {
        GainedIsReachable(g, e);
      }
    } else {
      PrefixedCyclesLoseRoutes(g, found);
    }
  }

  class Walker {
    const g: Graph
    var visited: set<string>
    var visiting: set<string>
    var found: seq<Registration>

    constructor (graph: Graph)
      ensures g == graph && visited == {} && visiting == {} && found == []
    {
      g := graph;
      visited, visiting, found := {}, {}, [];
    }

    ghost predicate Sound()
      reads this
    {
      forall e | e in found :: SimplyReachable(g, e)
    }

    method Walk(node: string, prefix: string, ghost path: Path)
      requires g.NulFree() && Sound() && Trail(g, visiting, visited, path)
      requires node == path.End() && prefix == path.Prefix()
      modifies this
      ensures Sound() && visiting == old(visiting)
      ensures old(visited) <= visited
      ensures forall e | e in old(found) :: e in found
      ensures |visited| < RESOLUTION_LIMIT && CyclesAddNothing(g) ==>
                Handled(g, visited, node, prefix) && AllClosed(g, old(visited), visited, found)
      decreases g.Nodes() - visiting
    {
      if node in g.unresolved {
        return;
      }
      TrailIsPath(g, visiting, visited, path);
      var key := Key(node, prefix);
      if node in visiting || key in visited || |visited| >= RESOLUTION_LIMIT {
        if CyclesAddNothing(g) && node in visiting {
          CutNodeIsHandled(g, visiting, visited, path);
        }
        assert Stands(g, node, prefix, prefix);
        return;
      }
      Enter(node, prefix, key, path);
      var edges := g.EdgesOf(node);
      label Entered:
      for i := 0 to |edges|
        invariant Sound() && visiting == old(visiting) + {node}
        invariant old(visited) + {key} <= visited
        invariant forall e | e in old@Entered(found) :: e in found
        invariant |visited| < RESOLUTION_LIMIT && CyclesAddNothing(g) ==>
                    && ChildrenHandled(g, visited, edges, prefix, i)
                    && AllClosed(g, old(visited) + {key}, visited, found)
      {
        label Before:
        TrailGrows(g, old(visiting), old(visited), path, visited);
        assert visiting - {node} == old(visiting);
        Walk(edges[i].child, Join(prefix, edges[i].prefix), Then(path, edges[i]));
        SubsetIsNoLarger(old@Before(visited), visited);
        if |visited| < RESOLUTION_LIMIT && CyclesAddNothing(g) {
          ChildrenStayHandled(g, old@Before(visited), visited, edges, prefix, i);
          AllClosedComposes(g, old(visited) + {key}, old@Before(visited), visited, old@Before(found), found);
        }
      }
      visiting := visiting - {node};
      if |visited| < RESOLUTION_LIMIT && CyclesAddNothing(g) {
        EnteredIsClosed(g, old(visited), visited, found, node, prefix);
      }
    }

    /** Marks the node and reports its own routes. */
    method Enter(node: string, prefix: string, key: string, ghost path: Path)
      requires Sound() && Trail(g, visiting, visited, path)
      requires node == path.End() && prefix == path.Prefix()
      requires node !in visiting && node !in g.unresolved && key == Key(node, prefix)
      modifies this
      ensures Sound()
      ensures visiting == old(visiting) + {node} && visited == old(visited) + {key}
      ensures forall e :: e in found <==>
                  e in old(found) || exists r | r in g.RoutesOf(node) :: e == EndpointAt(prefix, r)
    {
      visited := visited + {key};
      visiting := visiting + {node};
      var routes := g.RoutesOf(node);
      for i := 0 to |routes|
        invariant Sound()
        invariant visiting == old(visiting) + {node} && visited == old(visited) + {key}
        invariant forall e :: e in found <==>
                  e in old(found) || exists k | 0 <= k < i :: e == EndpointAt(prefix, routes[k])
      {
        TrailEndIsSimplyReachable(g, old(visiting), old(visited), path, routes[i]);
        found := found + [EndpointAt(prefix, routes[i])];
      }
    }

    /** Walks from every root.  Whatever is reported is served by a path without repetition.
        Below the limit, every endpoint of a root path is reported, up to one slash at its end,
        if and only if no cycle adds a prefix; and exactly these endpoints are reported if and
        only if, besides, those are that a cycle gives such a slash.  Of the graph alone: it is
        enough that no cycle gives one, and necessary that paths without repetition serve them. */
    method Resolve() returns (limitReached: bool)
      requires g.NulFree() && visited == {} && visiting == {} && found == []
      modifies this
      ensures forall e | e in found :: SimplyReachable(g, e)
      ensures limitReached <==> |visited| >= RESOLUTION_LIMIT
      ensures !limitReached ==> (FindsAllUpToSlash(g, found) <==> CyclesAddNothing(g))
      ensures !limitReached ==>
                (FindsExactly(g, found) <==> CyclesAddNothing(g) && forall e | GainedEndpoint(g, e) :: e in found)
      ensures !limitReached && CyclesAddNothing(g) && (forall e :: !GainedEndpoint(g, e)) ==> FindsExactly(g, found)
      ensures !limitReached && FindsExactly(g, found) ==>
                CyclesAddNothing(g) && forall e | GainedEndpoint(g, e) :: SimplyReachable(g, e)
    {
      var roots := Roots();
      for i := 0 to |roots|
        invariant Sound() && visiting == {}
        invariant |visited| < RESOLUTION_LIMIT && CyclesAddNothing(g) ==>
                    && (forall k | 0 <= k < i :: Handled(g, visited, roots[k], ""))
                    && AllClosed(g, {}, visited, found)
      {
        label Before:
        assert roots[i] in roots;
        Walk(roots[i], "", At(roots[i]));
        SubsetIsNoLarger(old@Before(visited), visited);
        if |visited| < RESOLUTION_LIMIT && CyclesAddNothing(g) {
          forall k | 0 <= k < i ensures Handled(g, visited, roots[k], "") {
            HandledIsStable(g, old@Before(visited), visited, roots[k], "");
          }
          AllClosedComposes(g, {}, old@Before(visited), visited, old@Before(found), found);
        }
      }
      limitReached := |visited| >= RESOLUTION_LIMIT;
      if !limitReached {
        FoundExactly(g, visited, found);
      }
    }

    /** The nodes without an incoming mount, sorted; one with both routes and mounts is
        listed twice. */
    method Roots() returns (roots: seq<string>)
      ensures forall n :: n in roots <==> IsRoot(g, n)
      ensures forall i, j | 0 <= i < j < |roots| :: !Less(roots[j], roots[i])
    {
      var incoming := set p, e | p in g.edges && e in g.edges[p] :: e.child;
      var parents := ListKeys(g.edges.Keys);
      var routed := ListKeys(g.routes.Keys);
      roots := WithoutIncoming(routed, incoming) + WithoutIncoming(parents, incoming);
      SortKeepsElements(roots);
      SortIsSorted(roots);
      roots := Sort(roots);
    }
  }

  function WithoutIncoming(nodes: seq<string>, incoming: set<string>): (r: seq<string>)
    ensures forall n :: n in r <==> n in nodes && n !in incoming
  {
    if nodes == [] then []
    else
      assert nodes == [nodes[0]] + nodes[1..];
      (if nodes[0] in incoming then [] else [nodes[0]]) + WithoutIncoming(nodes[1..], incoming)
  }
}

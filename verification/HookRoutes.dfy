/** Hook routes (routes.rs and sqlite.rs): the table that says which trigger of a deployed flow
    answers which method and path, kept in step with the deployed snapshot. */
module HookRoutes {
  import opened Digraphs
  import opened Texts
  import opened Wrappers

  // ---- Paths ----

  function TrimSlashes(s: string): string {
    if s != [] && s[0] == '/' then TrimSlashes(s[1..]) else s
  }

  function NormalizeHookPath(path: string): string {
    var trimmed := Trim(path);
    if trimmed == "" || trimmed == "/" then "/" else "/" + TrimSlashes(trimmed)
  }

  lemma {:induction false} TrimSlashesEnds(s: string)
    ensures TrimSlashes(s) != [] ==> TrimSlashes(s)[0] != '/' && TrimSlashes(s)[|TrimSlashes(s)| - 1] == s[|s| - 1]
    ensures |TrimSlashes(s)| <= |s|
  {
    if s != [] && s[0] == '/' {
      TrimSlashesEnds(s[1..]);
    }
  }

  /** A normalised path starts with exactly one slash and normalising it again changes nothing, so
      a request path is the path of some route only if it is its own normal form. */
  lemma NormalFormIsStable(path: string)
    ensures var n := NormalizeHookPath(path);
            && n != [] && n[0] == '/' && (|n| > 1 ==> n[1] != '/')
            && NormalizeHookPath(n) == n
  {
    var trimmed := Trim(path);
    TrimStartEnds(path);
    TrimEndEnds(TrimStart(path));
    TrimSlashesEnds(trimmed);
    var n := NormalizeHookPath(path);
    assert !IsWhitespace(n[0]) && !IsWhitespace(n[|n| - 1]);
    assert Trim(n) == n;
    if n != "/" {
      assert n[1..] == TrimSlashes(trimmed);
      assert TrimSlashes(n) == TrimSlashes(n[1..]) == n[1..];
    }
  }

  function Slashes(k: nat): string {
    seq(k, _ => '/')
  }

  /** Behind `k` slashes, what a path is about: it does not go on with a slash or end in white
      space, nor does it start with white space when there is no slash before it. */
  ghost predicate IsCore(k: nat, s: string) {
    s != [] ==> s[0] != '/' && !IsWhitespace(s[|s| - 1]) && (k == 0 ==> !IsWhitespace(s[0]))
  }

  lemma {:induction false} TrimSlashesOver(k: nat, s: string)
    requires s != [] ==> s[0] != '/'
    ensures TrimSlashes(Slashes(k) + s) == s
  {
    if k == 0 {
      assert Slashes(k) + s == s;
    } else {
      assert (Slashes(k) + s)[1..] == Slashes(k - 1) + s;
      TrimSlashesOver(k - 1, s);
    }
  }

  /** The normal form of white space, any number of slashes, a core and white space is one slash and
      the core, all of it. */
  lemma NormalFormOf(w: string, k: nat, s: string, w': string)
    requires AllWhite(w) && AllWhite(w') && IsCore(k, s)
    ensures NormalizeHookPath(w + Slashes(k) + s + w') == "/" + s
  {
    var body := Slashes(k) + s;
    assert w + Slashes(k) + s + w' == w + (body + w');
    if body == [] {
      assert w + (body + w') == (w + w') + [];
      TrimStartOver(w + w', []);
    } else {
      assert body[0] == (if k == 0 then s[0] else '/') && body[|body| - 1] == (if s == [] then '/' else s[|s| - 1]);
      TrimStartOver(w, body + w');
      TrimEndOver(body, w');
      TrimSlashesOver(k, s);
    }
  }

  lemma {:induction false} SlashesSplit(s: string) returns (k: nat)
    ensures s == Slashes(k) + TrimSlashes(s)
  {
    k := 0;
    if s != [] && s[0] == '/' {
      var n := SlashesSplit(s[1..]);
      k := n + 1;
      assert Slashes(k) == ['/'] + Slashes(n);
    }
  }

  /** Every path is made up like that, so its normal form is known. */
  lemma PathParts(path: string) returns (w: string, k: nat, s: string, w': string)
    ensures AllWhite(w) && AllWhite(w') && IsCore(k, s) && path == w + Slashes(k) + s + w'
    ensures NormalizeHookPath(path) == "/" + s
  {
    hide TrimStart, TrimEnd, TrimSlashes, NormalizeHookPath, IsWhitespace;
    var start, trimmed := TrimStart(path), Trim(path);
    w := TrimStartSplit(path);
    w' := TrimEndSplit(start);
    k := SlashesSplit(trimmed);
    s := TrimSlashes(trimmed);
    TrimStartEnds(path);
    TrimEndEnds(start);
    TrimSlashesEnds(trimmed);
    assert path == w + (trimmed + w');
    assert trimmed == Slashes(k) + s;
    assert k == 0 && s != [] ==> trimmed[0] == s[0] == start[0];
    assert path == w + Slashes(k) + s + w';
    NormalFormOf(w, k, s, w');
  }

  // ---- Canvas and routes ----

  /** A canvas node, with the fields the routes are made from; `config` is its whole configuration. */
  datatype CanvasNode = CanvasNode(id: Option<string>, nodeType: string, verb: Option<string>, path: Option<string>,
      config: string)

  /** The stored canvas of a flow; a flow that was never saved has none. */
  type Canvas = Option<seq<CanvasNode>>

  /** A method and a normalised path. */
  datatype RouteKey = RouteKey(verb: string, path: string)

  datatype HookRoute = HookRoute(key: RouteKey, nodeId: string, nodeType: string)

  predicate IsHookType(nodeType: string) {
    nodeType == "http-in" || nodeType == "webhook" || nodeType == "webhook-trigger"
  }

  /** A node that declares a route: of a hook type, with an id to bind the route to. */
  predicate IsTrigger(n: CanvasNode) {
    IsHookType(n.nodeType) && n.id.Some? && n.id.value != ""
  }

  function KeyOf(upper: string -> string, n: CanvasNode): RouteKey {
    RouteKey(upper(if n.verb.Some? then n.verb.value else "POST"),
             NormalizeHookPath(if n.path.Some? then n.path.value else "/"))
  }

  function Nodes(c: Canvas): seq<CanvasNode> {
    if c.Some? then c.value else []
  }

  /** The routes of the triggers, in canvas order. */
  function RoutesOf(upper: string -> string, nodes: seq<CanvasNode>): seq<HookRoute> {
    if nodes == [] then []
    else
      var n := nodes[|nodes| - 1];
      RoutesOf(upper, nodes[..|nodes| - 1])
      + if IsTrigger(n) then [HookRoute(KeyOf(upper, n), n.id.value, n.nodeType)] else []
  }

  /** No two triggers declare the same method and path. */
  ghost predicate DistinctKeys(upper: string -> string, nodes: seq<CanvasNode>) {
    forall i, j :: 0 <= i < j < |nodes| && IsTrigger(nodes[i]) && IsTrigger(nodes[j]) ==>
      KeyOf(upper, nodes[i]) != KeyOf(upper, nodes[j])
  }

  lemma {:induction false} RoutesAreTriggers(upper: string -> string, nodes: seq<CanvasNode>)
    ensures forall r <- RoutesOf(upper, nodes) ::
              exists i :: 0 <= i < |nodes| && IsTrigger(nodes[i])
                  && r == HookRoute(KeyOf(upper, nodes[i]), nodes[i].id.value, nodes[i].nodeType)
    ensures forall i :: 0 <= i < |nodes| && IsTrigger(nodes[i]) ==>
              HookRoute(KeyOf(upper, nodes[i]), nodes[i].id.value, nodes[i].nodeType) in RoutesOf(upper, nodes)
  {
    hide KeyOf, IsHookType;
    if nodes != [] {
      var front := nodes[..|nodes| - 1];
      RoutesAreTriggers(upper, front);
      forall r | r in RoutesOf(upper, nodes)
        ensures exists i ::
                  0 <= i < |nodes| && IsTrigger(nodes[i])
                  && r == HookRoute(KeyOf(upper, nodes[i]), nodes[i].id.value, nodes[i].nodeType)
      {
        if r in RoutesOf(upper, front) {
          var i :| 0 <= i < |front| && IsTrigger(front[i])
              && r == HookRoute(KeyOf(upper, front[i]), front[i].id.value, front[i].nodeType);
          assert nodes[i] == front[i];
        }
      }
      forall i | 0 <= i < |nodes| && IsTrigger(nodes[i])
        ensures HookRoute(KeyOf(upper, nodes[i]), nodes[i].id.value, nodes[i].nodeType) in RoutesOf(upper, nodes)
      {
        if i < |front| {
          assert front[i] == nodes[i];
        }
      }
    }
  }

  /** What one more node does to the routes and to their distinctness. */
  lemma OneMoreNode(upper: string -> string, nodes: seq<CanvasNode>, n: CanvasNode)
    requires DistinctKeys(upper, nodes)
    ensures RoutesOf(upper, nodes + [n])
         == RoutesOf(upper, nodes) + if IsTrigger(n) then [HookRoute(KeyOf(upper, n), n.id.value, n.nodeType)] else []
    ensures DistinctKeys(upper, nodes + [n]) <==>
            !(IsTrigger(n) && exists r <- RoutesOf(upper, nodes) :: r.key == KeyOf(upper, n))
  {
    var all := nodes + [n];
    assert all[..|all| - 1] == nodes;
    RoutesAreTriggers(upper, nodes);
    hide RoutesOf, KeyOf, IsHookType;
    assert forall i :: 0 <= i < |nodes| ==> all[i] == nodes[i];
    assert all[|nodes|] == n;
    if IsTrigger(n) {
      if i :| 0 <= i < |nodes| && IsTrigger(nodes[i]) && KeyOf(upper, nodes[i]) == KeyOf(upper, n) {
        assert all[i] == nodes[i];
        assert HookRoute(KeyOf(upper, nodes[i]), nodes[i].id.value, nodes[i].nodeType).key == KeyOf(upper, n);
      }
    }
  }

  lemma FewerNodes(upper: string -> string, nodes: seq<CanvasNode>, k: nat)
    requires k <= |nodes| && DistinctKeys(upper, nodes)
    ensures DistinctKeys(upper, nodes[..k])
  {
  }

  /** Scans the canvas; two triggers with one route are an error instead of a silent choice. */
  method CollectHookRoutes(upper: string -> string, canvas: Canvas) returns (r: Result<seq<HookRoute>, RouteKey>)
    ensures r.Ok? <==> DistinctKeys(upper, Nodes(canvas))
    ensures r.Ok? ==> r.value == RoutesOf(upper, Nodes(canvas))
    ensures r.Err? ==> DeclaredTwice(upper, Nodes(canvas), r.error)
  {
    hide DistinctKeys, RoutesOf, KeyOf;
    var routes: seq<HookRoute> := [];
    EmptyCanvas(upper);
    if canvas.None? {
      return Ok(routes);
    }
    var nodes := canvas.value;
    for i := 0 to |nodes|
      invariant routes == RoutesOf(upper, nodes[..i])
      invariant DistinctKeys(upper, nodes[..i])
    {
      var n := nodes[i];
      assert nodes[..i + 1] == nodes[..i] + [n];
      OneMoreNode(upper, nodes[..i], n);
      if IsTrigger(n) {
        var key := KeyOf(upper, n);
        if exists existing <- routes :: existing.key == key {
          if DistinctKeys(upper, nodes) {
            FewerNodes(upper, nodes, i + 1);
          }
          FirstDeclared(upper, nodes, i, key);
          return Err(key);
        }
        routes := routes + [HookRoute(key, n.id.value, n.nodeType)];
      }
    }
    assert nodes[..|nodes|] == nodes;
    return Ok(routes);
  }

  /** Two triggers declare this route. */
  ghost predicate DeclaredTwice(upper: string -> string, nodes: seq<CanvasNode>, key: RouteKey) {
    exists i, j :: 0 <= i < j < |nodes| && IsTrigger(nodes[i]) && IsTrigger(nodes[j])
        && KeyOf(upper, nodes[i]) == key == KeyOf(upper, nodes[j])
  }

  lemma FirstDeclared(upper: string -> string, nodes: seq<CanvasNode>, j: nat, key: RouteKey)
    requires j < |nodes| && IsTrigger(nodes[j]) && KeyOf(upper, nodes[j]) == key
    requires exists r <- RoutesOf(upper, nodes[..j]) :: r.key == key
    ensures DeclaredTwice(upper, nodes, key)
  {
    RoutesAreTriggers(upper, nodes[..j]);
    hide KeyOf, RoutesOf, IsHookType;
    var r :| r in RoutesOf(upper, nodes[..j]) && r.key == key;
    var front := nodes[..j];
    var i :| 0 <= i < j && IsTrigger(front[i])
        && r == HookRoute(KeyOf(upper, front[i]), front[i].id.value, front[i].nodeType);
    assert nodes[i] == front[i];
  }

  lemma EmptyCanvas(upper: string -> string)
    ensures RoutesOf(upper, []) == [] && DistinctKeys(upper, [])
  {
  }

  // ---- The tables ----

  datatype Deployment = Deployment(userId: Uuid, snapshot: Canvas)

  datatype HookMatch = HookMatch(userId: Uuid, nodeId: string)

  datatype Tables = Tables(flows: map<Uuid, Canvas>, deployments: map<Uuid, Deployment>,
      hookRoutes: map<(Uuid, RouteKey), HookMatch>)

  const Empty := Tables(map[], map[], map[])

  function WithoutRoutes(rows: map<(Uuid, RouteKey), HookMatch>, flowId: Uuid): map<(Uuid, RouteKey), HookMatch> {
    map k | k in rows && k.0 != flowId :: rows[k]
  }

  function InsertRoutes(rows: map<(Uuid, RouteKey), HookMatch>, flowId: Uuid, userId: Uuid, routes: seq<HookRoute>)
    : map<(Uuid, RouteKey), HookMatch>
  {
    if routes == [] then rows
    else
      var r := routes[|routes| - 1];
      InsertRoutes(rows, flowId, userId, routes[..|routes| - 1])[(flowId, r.key) := HookMatch(userId, r.nodeId)]
  }

  predicate KeysDiffer(routes: seq<HookRoute>) {
    forall i, j :: 0 <= i < j < |routes| ==> routes[i].key != routes[j].key
  }

  function Deployed(t: Tables, flowId: Uuid, userId: Uuid, snapshot: Canvas, routes: seq<HookRoute>): Tables {
    t.(deployments := t.deployments[flowId := Deployment(userId, snapshot)],
       hookRoutes := InsertRoutes(WithoutRoutes(t.hookRoutes, flowId), flowId, userId, routes))
  }

  function Undeployed(t: Tables, flowId: Uuid): Tables {
    t.(deployments := t.deployments - {flowId}, hookRoutes := WithoutRoutes(t.hookRoutes, flowId))
  }

  class SqliteStorage {
    var flows: map<Uuid, Canvas>
    var deployments: map<Uuid, Deployment>
    var hookRoutes: map<(Uuid, RouteKey), HookMatch>

    constructor ()
      ensures View() == Empty
    {
      flows, deployments, hookRoutes := map[], map[], map[];
    }

    ghost function View(): Tables
      reads this
    {
      Tables(flows, deployments, hookRoutes)
    }

    method SaveFlow(flowId: Uuid, canvas: Canvas)
      modifies this
      ensures View() == old(View()).(flows := old(flows)[flowId := canvas])
    {
      flows := flows[flowId := canvas];
    }

    /** A transaction that writes the deployment and its routes, and is rolled back when the primary
        key of the routes rejects a second row for one flow, method and path. */
    method DeployFlow(flowId: Uuid, userId: Uuid, snapshot: Canvas, routes: seq<HookRoute>) returns (ok: bool)
      modifies this
      ensures ok <==> KeysDiffer(routes)
      ensures View() == if ok then Deployed(old(View()), flowId, userId, snapshot, routes) else old(View())
    {
      var rows := WithoutRoutes(hookRoutes, flowId);
      ghost var start := rows;
      assert forall k :: (flowId, k) !in WithoutRoutes(hookRoutes, flowId);
      hide WithoutRoutes;
      for i := 0 to |routes|
        invariant rows == InsertRoutes(start, flowId, userId, routes[..i])
        invariant KeysDiffer(routes[..i])
        invariant forall k :: (flowId, k) in rows <==> exists j :: 0 <= j < i && routes[j].key == k
      {
        assert routes[..i + 1][..i] == routes[..i];
        if (flowId, routes[i].key) in rows {
          return false;
        }
        rows := rows[(flowId, routes[i].key) := HookMatch(userId, routes[i].nodeId)];
      }
      assert routes[..|routes|] == routes;
      deployments := deployments[flowId := Deployment(userId, snapshot)];
      hookRoutes := rows;
      return true;
    }

    method UndeployFlow(flowId: Uuid)
      modifies this
      ensures View() == Undeployed(old(View()), flowId)
    {
      hookRoutes := WithoutRoutes(hookRoutes, flowId);
      deployments := deployments - {flowId};
    }

    method FindHookRoute(flowId: Uuid, verb: string, path: string) returns (r: Option<HookMatch>)
      ensures r == FindRoute(View(), flowId, RouteKey(verb, path))
    {
      var key := (flowId, RouteKey(verb, path));
      r := if key in hookRoutes then Some(hookRoutes[key]) else None;
    }

    method GetDeployment(flowId: Uuid) returns (r: Option<Canvas>)
      ensures r == if flowId in View().deployments then Some(View().deployments[flowId].snapshot) else None
    {
      r := if flowId in deployments then Some(deployments[flowId].snapshot) else None;
    }

    /** The first step of a deletion. */
    method ForgetFlow(flowId: Uuid)
      modifies this
      ensures View() == old(View()).(flows := old(flows) - {flowId})
    {
      flows := flows - {flowId};
    }

    method Serve(upper: string -> string, op: Op)
      modifies this
      ensures View() == Perform(upper, old(View()), op)
    {
      match op
      case Save(f, canvas) => SaveFlow(f, canvas);
      case Start(f, u, read) => StartFlow(upper, f, u, read);
      case Undeploy(f) => UndeployFlow(f);
      case Forget(f) => ForgetFlow(f);
    }

    /** A hook request finds its route, other requests are served meanwhile, and it then reads the
        snapshot and the configuration of its trigger. */
    method ReadForHook(upper: string -> string, flowId: Uuid, verb: string, path: string, meanwhile: seq<Op>)
      returns (read: HookRead)
      modifies this
      ensures View() == PerformAll(upper, old(View()), meanwhile)
      ensures read == ReadHook(old(View()), View(), flowId, RouteKey(verb, path))
    {
      var route := FindHookRoute(flowId, verb, path);
      hide Perform;
      for i := 0 to |meanwhile|
        invariant View() == PerformAll(upper, old(View()), meanwhile[..i])
      {
        assert meanwhile[..i + 1][..i] == meanwhile[..i];
        Serve(upper, meanwhile[i]);
      }
      assert meanwhile[..|meanwhile|] == meanwhile;
      if route.None? {
        return NoRoute;
      }
      var snapshot := GetDeployment(flowId);
      if snapshot.None? {
        return NotDeployed;
      }
      var config := TriggerNodeConfig(Nodes(snapshot.value), route.value.nodeId);
      return if config.None? then TriggerMissing else Found(route.value.nodeId, config.value);
    }

    /** Starting a flow whose stored canvas is `read`: with triggers it is deployed, without any its
        old routes are retired; a canvas never saved or ambiguous leaves everything as it was. */
    method StartFlow(upper: string -> string, flowId: Uuid, userId: Uuid, read: Canvas)
      modifies this
      ensures View() == Started(upper, old(View()), flowId, userId, read)
    {
      if read.None? {
        return;
      }
      var collected := CollectHookRoutes(upper, read);
      if collected.Err? {
        return;
      }
      if collected.value != [] {
        DistinctRoutes(upper, Nodes(read));
        var ok := DeployFlow(flowId, userId, read, collected.value);
      } else {
        UndeployFlow(flowId);
      }
    }
  }

  function FindRoute(t: Tables, flowId: Uuid, key: RouteKey): Option<HookMatch> {
    if (flowId, key) in t.hookRoutes then Some(t.hookRoutes[(flowId, key)]) else None
  }

  lemma {:induction false} DistinctRoutes(upper: string -> string, nodes: seq<CanvasNode>)
    requires DistinctKeys(upper, nodes)
    ensures KeysDiffer(RoutesOf(upper, nodes))
  {
    if nodes != [] {
      var front := nodes[..|nodes| - 1];
      assert forall i :: 0 <= i < |front| ==> front[i] == nodes[i];
      DistinctRoutes(upper, front);
      assert nodes == front + [nodes[|nodes| - 1]];
      OneMoreNode(upper, front, nodes[|nodes| - 1]);
      hide RoutesOf, DistinctKeys, KeyOf;
    }
  }

  ghost function Started(upper: string -> string, t: Tables, flowId: Uuid, userId: Uuid, read: Canvas): Tables {
    if read.None? || !DistinctKeys(upper, Nodes(read)) then t
    else
      var routes := RoutesOf(upper, Nodes(read));
      if routes != [] then Deployed(t, flowId, userId, read, routes) else Undeployed(t, flowId)
  }

  // ---- The routes are an index of the deployed snapshots ----

  /** The lookup of any key in a flow's rows yields exactly the trigger that declares it. */
  ghost predicate IndexesSnapshot(upper: string -> string, t: Tables, flowId: Uuid)
    requires flowId in t.deployments
  {
    var d := t.deployments[flowId];
    var nodes := Nodes(d.snapshot);
    && DistinctKeys(upper, nodes)
    && (forall key :: (flowId, key) in t.hookRoutes ==>
          exists i :: 0 <= i < |nodes| && IsTrigger(nodes[i]) && KeyOf(upper, nodes[i]) == key)
    && (forall i :: 0 <= i < |nodes| && IsTrigger(nodes[i]) ==>
          FindRoute(t, flowId, KeyOf(upper, nodes[i])) == Some(HookMatch(d.userId, nodes[i].id.value)))
  }

  ghost predicate Agrees(upper: string -> string, t: Tables) {
    && (forall k <- t.hookRoutes :: k.0 in t.deployments)
    && forall f <- t.deployments :: IndexesSnapshot(upper, t, f)
  }

  lemma {:induction false} InsertedRoutes(rows: map<(Uuid, RouteKey), HookMatch>, flowId: Uuid, userId: Uuid,
      routes: seq<HookRoute>)
    requires KeysDiffer(routes)
    ensures var after := InsertRoutes(rows, flowId, userId, routes);
            && (forall k: (Uuid, RouteKey) :: k.0 != flowId ==>
                (k in after <==> k in rows) && (k in rows ==> after[k] == rows[k]))
            && (forall r <- routes :: (flowId, r.key) in after && after[(flowId, r.key)] == HookMatch(userId, r.nodeId))
            && (forall k <- after :: k in rows || exists r <- routes :: k == (flowId, r.key))
  {
    if routes != [] {
      var front, last := routes[..|routes| - 1], routes[|routes| - 1];
      assert routes == front + [last];
      InsertedRoutes(rows, flowId, userId, front);
      forall r | r in front ensures r.key != last.key {
        var i :| 0 <= i < |front| && front[i] == r;
        assert routes[i] == r;
      }
    }
  }

  /** What a deployment writes, row by row. */
  lemma DeployedRows(upper: string -> string, t: Tables, flowId: Uuid, userId: Uuid, snapshot: Canvas)
    requires DistinctKeys(upper, Nodes(snapshot))
    ensures var routes := RoutesOf(upper, Nodes(snapshot));
            var t1 := Deployed(t, flowId, userId, snapshot, routes);
            && (forall f: Uuid, key :: f != flowId ==> FindRoute(t1, f, key) == FindRoute(t, f, key))
            && (forall r <- routes :: FindRoute(t1, flowId, r.key) == Some(HookMatch(userId, r.nodeId)))
            && (forall key :: FindRoute(t1, flowId, key).Some? ==> exists r <- routes :: r.key == key)
            && t1.deployments == t.deployments[flowId := Deployment(userId, snapshot)]
  {
    DistinctRoutes(upper, Nodes(snapshot));
    InsertedRoutes(WithoutRoutes(t.hookRoutes, flowId), flowId, userId, RoutesOf(upper, Nodes(snapshot)));
    hide RoutesOf, InsertRoutes, KeyOf, KeysDiffer, DistinctKeys;
  }

  lemma DeployAgrees(upper: string -> string, t: Tables, flowId: Uuid, userId: Uuid, snapshot: Canvas)
    requires Agrees(upper, t) && DistinctKeys(upper, Nodes(snapshot))
    ensures Agrees(upper, Deployed(t, flowId, userId, snapshot, RoutesOf(upper, Nodes(snapshot))))
  {
    var t1 := Deployed(t, flowId, userId, snapshot, RoutesOf(upper, Nodes(snapshot)));
    DeployedRows(upper, t, flowId, userId, snapshot);
    hide RoutesOf, KeyOf, DistinctKeys, Deployed, IndexesSnapshot;
    forall k | k in t1.hookRoutes ensures k.0 in t1.deployments {
      assert FindRoute(t1, k.0, k.1).Some?;
      assert k.0 != flowId ==> FindRoute(t, k.0, k.1).Some?;
    }
    forall f | f in t1.deployments ensures IndexesSnapshot(upper, t1, f) {
      if f != flowId {
        OtherFlowKeepsIndex(upper, t, t1, f);
      } else {
        FreshIndex(upper, t1, flowId, userId, snapshot);
      }
    }
  }

  lemma FreshIndex(upper: string -> string, t: Tables, flowId: Uuid, userId: Uuid, snapshot: Canvas)
    requires DistinctKeys(upper, Nodes(snapshot))
    requires flowId in t.deployments && t.deployments[flowId] == Deployment(userId, snapshot)
    requires forall r <- RoutesOf(upper, Nodes(snapshot)) ::
               FindRoute(t, flowId, r.key) == Some(HookMatch(userId, r.nodeId))
    requires forall key :: FindRoute(t, flowId, key).Some? ==>
             exists r <- RoutesOf(upper, Nodes(snapshot)) :: r.key == key
    ensures IndexesSnapshot(upper, t, flowId)
  {
    RoutesAreTriggers(upper, Nodes(snapshot));
    hide RoutesOf, KeyOf, DistinctKeys, IsHookType;
    forall key | (flowId, key) in t.hookRoutes ensures FindRoute(t, flowId, key).Some? {}
    var nodes := Nodes(snapshot);
    forall i | 0 <= i < |nodes| && IsTrigger(nodes[i])
      ensures FindRoute(t, flowId, KeyOf(upper, nodes[i])) == Some(HookMatch(userId, nodes[i].id.value))
    {
      assert HookRoute(KeyOf(upper, nodes[i]), nodes[i].id.value, nodes[i].nodeType) in RoutesOf(upper, nodes);
    }
  }

  lemma OtherFlowKeepsIndex(upper: string -> string, t: Tables, t1: Tables, f: Uuid)
    requires f in t.deployments && f in t1.deployments && t1.deployments[f] == t.deployments[f]
    requires IndexesSnapshot(upper, t, f)
    requires forall key :: FindRoute(t1, f, key) == FindRoute(t, f, key)
    ensures IndexesSnapshot(upper, t1, f)
  {
    hide KeyOf;
    forall key | (f, key) in t1.hookRoutes ensures (f, key) in t.hookRoutes {
      assert FindRoute(t1, f, key).Some?;
    }
  }

  lemma UndeployAgrees(upper: string -> string, t: Tables, flowId: Uuid)
    requires Agrees(upper, t)
    ensures Agrees(upper, Undeployed(t, flowId))
  {
    var t1 := Undeployed(t, flowId);
    forall f | f in t1.deployments ensures IndexesSnapshot(upper, t1, f) {
      OtherFlowKeepsIndex(upper, t, t1, f);
    }
  }

  /** The steps of the requests, each one transaction.  A start deploys the canvas it `read`, which
      live saves may have replaced since; deleting a flow is a Forget followed by an Undeploy. */
  datatype Op =
    | Save(flowId: Uuid, canvas: Canvas)
    | Start(flowId: Uuid, userId: Uuid, read: Canvas)
    | Undeploy(flowId: Uuid)
    | Forget(flowId: Uuid)

  ghost function Perform(upper: string -> string, t: Tables, op: Op): Tables {
    match op
    case Save(f, canvas) => t.(flows := t.flows[f := canvas])
    case Start(f, u, read) => Started(upper, t, f, u, read)
    case Undeploy(f) => Undeployed(t, f)
    case Forget(f) => t.(flows := t.flows - {f})
  }

  ghost function PerformAll(upper: string -> string, t: Tables, ops: seq<Op>): Tables {
    if ops == [] then t else Perform(upper, PerformAll(upper, t, ops[..|ops| - 1]), ops[|ops| - 1])
  }

  /** After any sequence of saves, starts, undeployments and deletions the routes agree with the
      deployed snapshots, and no route exists without a snapshot. */
  lemma {:induction false} AlwaysAgrees(upper: string -> string, ops: seq<Op>)
    ensures Agrees(upper, PerformAll(upper, Empty, ops))
  {
    if ops != [] {
      AlwaysAgrees(upper, ops[..|ops| - 1]);
      var t := PerformAll(upper, Empty, ops[..|ops| - 1]);
      match ops[|ops| - 1]
      case Save(f, canvas) =>
        SavedAgrees(upper, t, t.flows[f := canvas]);
      case Start(f, u, read) =>
        if read.Some? && DistinctKeys(upper, Nodes(read)) {
          DeployAgrees(upper, t, f, u, read);
          UndeployAgrees(upper, t, f);
        }
      case Undeploy(f) => UndeployAgrees(upper, t, f);
      case Forget(f) => SavedAgrees(upper, t, t.flows - {f});
    }
  }

  /** Editing live flows touches neither snapshots nor routes. */
  lemma SavedAgrees(upper: string -> string, t: Tables, flows: map<Uuid, Canvas>)
    requires Agrees(upper, t)
    ensures Agrees(upper, t.(flows := flows))
  {
    var t1 := t.(flows := flows);
    forall f | f in t1.deployments ensures IndexesSnapshot(upper, t1, f) {
      OtherFlowKeepsIndex(upper, t, t1, f);
    }
  }

  /** The node at `i` is the only trigger of the canvas with this id, method and path. */
  ghost predicate OnlyTrigger(upper: string -> string, nodes: seq<CanvasNode>, i: nat, key: RouteKey) {
    && i < |nodes| && IsTrigger(nodes[i]) && KeyOf(upper, nodes[i]) == key
    && forall j :: 0 <= j < |nodes| && IsTrigger(nodes[j]) && KeyOf(upper, nodes[j]) == key ==> j == i
  }

  /** A lookup finds node `id` exactly when the deployed snapshot has a unique trigger for the
      method and path, and it is that node. */
  lemma LookupFindsTheTrigger(upper: string -> string, ops: seq<Op>, flowId: Uuid, key: RouteKey, id: string)
    ensures var t := PerformAll(upper, Empty, ops);
            (FindRoute(t, flowId, key).Some? && FindRoute(t, flowId, key).value.nodeId == id) <==>
            (flowId in t.deployments && exists i: nat ::
               OnlyTrigger(upper, Nodes(t.deployments[flowId].snapshot), i, key)
                   && Nodes(t.deployments[flowId].snapshot)[i].id == Some(id))
  {
    AlwaysAgrees(upper, ops);
    hide KeyOf, PerformAll;
    var t := PerformAll(upper, Empty, ops);
    if FindRoute(t, flowId, key).Some? && FindRoute(t, flowId, key).value.nodeId == id {
      assert (flowId, key) in t.hookRoutes;
      assert IndexesSnapshot(upper, t, flowId);
      var nodes := Nodes(t.deployments[flowId].snapshot);
      var i: nat :| i < |nodes| && IsTrigger(nodes[i]) && KeyOf(upper, nodes[i]) == key;
      assert OnlyTrigger(upper, nodes, i, key);
    }
    if flowId in t.deployments {
      assert IndexesSnapshot(upper, t, flowId);
    }
  }

  // ---- The configuration the trigger is authorised with ----

  /** The configuration of the first node with the given id, of whatever type. */
  function TriggerNodeConfig(nodes: seq<CanvasNode>, id: string): Option<string> {
    if nodes == [] then None
    else if nodes[0].id == Some(id) then Some(nodes[0].config)
    else TriggerNodeConfig(nodes[1..], id)
  }

  ghost predicate FirstWithId(nodes: seq<CanvasNode>, j: nat, id: string) {
    && j < |nodes| && nodes[j].id == Some(id)
    && forall k :: 0 <= k < j ==> nodes[k].id != Some(id)
  }

  ghost predicate HasId(nodes: seq<CanvasNode>, id: string) {
    exists j :: 0 <= j < |nodes| && nodes[j].id == Some(id)
  }

  lemma {:induction false} ConfigOfFirst(nodes: seq<CanvasNode>, id: string, j: nat)
    requires FirstWithId(nodes, j, id)
    ensures TriggerNodeConfig(nodes, id) == Some(nodes[j].config)
  {
    if j > 0 {
      assert nodes[0].id != Some(id);
      var rest := nodes[1..];
      forall k | 0 <= k < j - 1 ensures rest[k].id != Some(id) {
        assert rest[k] == nodes[k + 1];
      }
      ConfigOfFirst(rest, id, j - 1);
    }
  }

  lemma {:induction false} FirstExists(nodes: seq<CanvasNode>, id: string, n: nat)
    requires n <= |nodes| && forall k :: 0 <= k < |nodes| - n ==> nodes[k].id != Some(id)
    ensures HasId(nodes, id) ==> exists j: nat :: FirstWithId(nodes, j, id)
    decreases n
  {
    if n > 0 {
      var j := |nodes| - n;
      if nodes[j].id == Some(id) {
        assert FirstWithId(nodes, j, id);
      } else {
        FirstExists(nodes, id, n - 1);
      }
    }
  }

  lemma {:induction false} NoIdNoConfig(nodes: seq<CanvasNode>, id: string)
    requires !HasId(nodes, id)
    ensures TriggerNodeConfig(nodes, id).None?
  {
    if nodes != [] {
      assert nodes[0].id != Some(id);
      forall k | 0 <= k < |nodes| - 1 ensures nodes[1..][k].id != Some(id) {
        assert nodes[1..][k] == nodes[k + 1];
      }
      NoIdNoConfig(nodes[1..], id);
    }
  }

  /** If any node has the id, the first of them decides, whatever its type. */
  lemma FirstDecides(nodes: seq<CanvasNode>, id: string)
    ensures TriggerNodeConfig(nodes, id).Some? <==> HasId(nodes, id)
    ensures HasId(nodes, id) ==> exists j: nat :: FirstWithId(nodes, j, id)
    ensures forall j: nat :: FirstWithId(nodes, j, id) ==> TriggerNodeConfig(nodes, id) == Some(nodes[j].config)
  {
    FirstExists(nodes, id, |nodes|);
    hide TriggerNodeConfig;
    if HasId(nodes, id) {
      var j: nat :| FirstWithId(nodes, j, id);
      ConfigOfFirst(nodes, id, j);
    } else {
      NoIdNoConfig(nodes, id);
    }
    forall j: nat | FirstWithId(nodes, j, id) ensures TriggerNodeConfig(nodes, id) == Some(nodes[j].config) {
      ConfigOfFirst(nodes, id, j);
    }
  }

  /** An id yields a configuration exactly when the first node with the id, trigger or not, has it. */
  lemma ConfigIff(nodes: seq<CanvasNode>, id: string, config: string)
    ensures TriggerNodeConfig(nodes, id) == Some(config) <==>
            exists j: nat :: FirstWithId(nodes, j, id) && nodes[j].config == config
  {
    FirstDecides(nodes, id);
  }

  // ---- A request reads the route and the snapshot one after the other ----

  /** What a request finds: no route; no snapshot any more; no node with the route's id in it; or
      the configuration to authorise it with. */
  datatype HookRead = NoRoute | NotDeployed | TriggerMissing | Found(nodeId: string, config: string)

  /** The route is read from `first` and the snapshot, in a second query, from `second`. */
  function ReadHook(first: Tables, second: Tables, flowId: Uuid, key: RouteKey): HookRead {
    var route := FindRoute(first, flowId, key);
    if route.None? then NoRoute
    else if flowId !in second.deployments then NotDeployed
    else
      var config := TriggerNodeConfig(Nodes(second.deployments[flowId].snapshot), route.value.nodeId);
      if config.None? then TriggerMissing else Found(route.value.nodeId, config.value)
  }

  /** With any operations between the two reads, a request on the route of trigger `own` is
      authorised with the trigger's own configuration exactly when the snapshot read second exists
      and the first node in it with the trigger's id has that configuration; and it fails exactly
      when there is no snapshot, or no node with the id. */
  lemma ReadsOwnTriggerIff(upper: string -> string, ops: seq<Op>, more: seq<Op>, flowId: Uuid, key: RouteKey, i: nat)
    requires var t := PerformAll(upper, Empty, ops);
             flowId in t.deployments && OnlyTrigger(upper, Nodes(t.deployments[flowId].snapshot), i, key)
    ensures var first := PerformAll(upper, Empty, ops);
            var second := PerformAll(upper, first, more);
            var own := Nodes(first.deployments[flowId].snapshot)[i];
            var id := own.id.value;
            var read := ReadHook(first, second, flowId, key);
            && (read == NotDeployed <==> flowId !in second.deployments)
            && (read == TriggerMissing <==>
                  flowId in second.deployments && !HasId(Nodes(second.deployments[flowId].snapshot), id))
            && (read == Found(id, own.config) <==>
                  && flowId in second.deployments
                  && var nodes := Nodes(second.deployments[flowId].snapshot);
                     exists j: nat :: FirstWithId(nodes, j, id) && nodes[j].config == own.config)
  {
    AlwaysAgrees(upper, ops);
    var first := PerformAll(upper, Empty, ops);
    var second := PerformAll(upper, first, more);
    hide PerformAll, KeyOf, TriggerNodeConfig;
    assert IndexesSnapshot(upper, first, flowId);
    var own := Nodes(first.deployments[flowId].snapshot)[i];
    assert FindRoute(first, flowId, key) == Some(HookMatch(first.deployments[flowId].userId, own.id.value));
    if flowId in second.deployments {
      FirstDecides(Nodes(second.deployments[flowId].snapshot), own.id.value);
      ConfigIff(Nodes(second.deployments[flowId].snapshot), own.id.value, own.config);
      hide FirstWithId;
    }
  }

  /** The operation writes the snapshot of the flow: it removes it or, for a canvas that was saved
      and is not ambiguous, replaces or retires it. */
  ghost predicate Rewrites(upper: string -> string, op: Op, flowId: Uuid) {
    && (op.Undeploy? || (op.Start? && op.read.Some? && DistinctKeys(upper, Nodes(op.read))))
    && op.flowId == flowId
  }

  /** The snapshot of a flow after some operations, by the last of them that writes it. */
  ghost function LastWritten(upper: string -> string, was: Option<Canvas>, ops: seq<Op>, flowId: Uuid): Option<Canvas> {
    if ops == [] then was
    else
      var op := ops[|ops| - 1];
      if !Rewrites(upper, op, flowId) then LastWritten(upper, was, ops[..|ops| - 1], flowId)
      else if op.Start? && RoutesOf(upper, Nodes(op.read)) != [] then Some(op.read)
      else None
  }

  ghost function SnapshotOf(t: Tables, flowId: Uuid): Option<Canvas> {
    if flowId in t.deployments then Some(t.deployments[flowId].snapshot) else None
  }

  /** Only deployments and retirements of the flow itself change its snapshot. */
  lemma {:induction false} SnapshotIsLastWritten(upper: string -> string, t: Tables, ops: seq<Op>, flowId: Uuid)
    ensures SnapshotOf(PerformAll(upper, t, ops), flowId) == LastWritten(upper, SnapshotOf(t, flowId), ops, flowId)
  {
    if ops != [] {
      SnapshotIsLastWritten(upper, t, ops[..|ops| - 1], flowId);
      SnapshotStep(upper, PerformAll(upper, t, ops[..|ops| - 1]), ops[|ops| - 1], flowId);
      hide Perform, SnapshotOf, Rewrites;
    }
  }

  lemma SnapshotStep(upper: string -> string, t: Tables, op: Op, flowId: Uuid)
    ensures SnapshotOf(Perform(upper, t, op), flowId) ==
            if !Rewrites(upper, op, flowId) then SnapshotOf(t, flowId)
            else if op.Start? && RoutesOf(upper, Nodes(op.read)) != [] then Some(op.read)
            else None
  {
    hide DistinctKeys, RoutesOf, InsertRoutes, WithoutRoutes;
  }

  lemma {:induction false} NothingWritten(upper: string -> string, was: Option<Canvas>, ops: seq<Op>, flowId: Uuid)
    requires forall op <- ops :: !Rewrites(upper, op, flowId)
    ensures LastWritten(upper, was, ops, flowId) == was
  {
    if ops != [] {
      assert ops[|ops| - 1] in ops;
      NothingWritten(upper, was, ops[..|ops| - 1], flowId);
    }
  }

  /** When nothing between the reads writes the flow's snapshot, a request found by its route is
      authorised with the trigger's own configuration exactly when no other node with the
      trigger's id, of a different configuration, comes first. */
  lemma LookupYieldsItsConfig(upper: string -> string, ops: seq<Op>, more: seq<Op>, flowId: Uuid, key: RouteKey, i: nat)
    requires var t := PerformAll(upper, Empty, ops);
             flowId in t.deployments && OnlyTrigger(upper, Nodes(t.deployments[flowId].snapshot), i, key)
    requires forall op <- more :: !Rewrites(upper, op, flowId)
    ensures var first := PerformAll(upper, Empty, ops);
            var second := PerformAll(upper, first, more);
            var nodes := Nodes(first.deployments[flowId].snapshot);
            var id := nodes[i].id.value;
            var read := ReadHook(first, second, flowId, key);
            && read.Found?
            && (read == Found(id, nodes[i].config) <==>
                exists j: nat :: FirstWithId(nodes, j, id) && nodes[j].config == nodes[i].config)
  {
    var first := PerformAll(upper, Empty, ops);
    ReadsOwnTriggerIff(upper, ops, more, flowId, key, i);
    SnapshotIsLastWritten(upper, first, more, flowId);
    NothingWritten(upper, SnapshotOf(first, flowId), more, flowId);
    hide PerformAll, Rewrites, LastWritten, KeyOf, TriggerNodeConfig, FirstWithId;
    var nodes := Nodes(first.deployments[flowId].snapshot);
    assert nodes[i].id == Some(nodes[i].id.value);
    assert HasId(nodes, nodes[i].id.value);
    assert FindRoute(first, flowId, key).Some? by {
      AlwaysAgrees(upper, ops);
      assert IndexesSnapshot(upper, first, flowId);
    }
  }

  // ---- Inputs that fail ----

  /** What is deployed by the start of an unambiguous canvas with a trigger. */
  lemma StartDeploys(upper: string -> string, t: Tables, flowId: Uuid, userId: Uuid, nodes: seq<CanvasNode>, i: nat)
    requires DistinctKeys(upper, nodes) && i < |nodes| && IsTrigger(nodes[i])
    ensures SnapshotOf(PerformAll(upper, t, [Start(flowId, userId, Some(nodes))]), flowId) == Some(Some(nodes))
    ensures OnlyTrigger(upper, nodes, i, KeyOf(upper, nodes[i]))
  {
    var ops := [Start(flowId, userId, Some(nodes))];
    SnapshotIsLastWritten(upper, t, ops, flowId);
    RoutesAreTriggers(upper, nodes);
    hide PerformAll, RoutesOf, IsTrigger, KeyOf;
    assert Rewrites(upper, ops[0], flowId);
  }

  /** On the canvas just deployed, the first node with the trigger's id decides. */
  lemma DeployedReads(upper: string -> string, flowId: Uuid, userId: Uuid, nodes: seq<CanvasNode>, i: nat, j: nat)
    requires DistinctKeys(upper, nodes) && i < |nodes| && IsTrigger(nodes[i])
    requires FirstWithId(nodes, j, nodes[i].id.value)
    ensures var t := PerformAll(upper, Empty, [Start(flowId, userId, Some(nodes))]);
            ReadHook(t, t, flowId, KeyOf(upper, nodes[i])) == Found(nodes[i].id.value, nodes[j].config)
  {
    var ops := [Start(flowId, userId, Some(nodes))];
    var t := PerformAll(upper, Empty, ops);
    StartDeploys(upper, Empty, flowId, userId, nodes, i);
    AlwaysAgrees(upper, ops);
    FirstDecides(nodes, nodes[i].id.value);
    hide PerformAll, KeyOf, TriggerNodeConfig;
    assert IndexesSnapshot(upper, t, flowId);
  }

  /** An earlier node with the trigger's id, plain or itself a trigger on another route, has the
      requests on the trigger's route authorised with its own configuration. */
  lemma SharedIdTakesOtherConfig(upper: string -> string, flowId: Uuid, userId: Uuid, other: CanvasNode,
      trigger: CanvasNode)
    requires IsTrigger(trigger) && other.id == trigger.id
    requires IsTrigger(other) ==> KeyOf(upper, other) != KeyOf(upper, trigger)
    ensures var t := PerformAll(upper, Empty, [Start(flowId, userId, Some([other, trigger]))]);
            ReadHook(t, t, flowId, KeyOf(upper, trigger)) == Found(trigger.id.value, other.config)
  {
    hide PerformAll, KeyOf;
    DeployedReads(upper, flowId, userId, [other, trigger], 1, 0);
  }

  /** A deployment between the two reads: the trigger is missing from the new snapshot, or its id
      there names another trigger, whose configuration then authorises a request on the old
      route.  A retirement in between leaves no snapshot. */
  lemma RedeployBetweenReads(upper: string -> string, flowId: Uuid, userId: Uuid, a: CanvasNode, b: CanvasNode)
    requires IsTrigger(a) && IsTrigger(b)
    ensures var first := PerformAll(upper, Empty, [Start(flowId, userId, Some([a]))]);
            && ReadHook(first, PerformAll(upper, first, [Start(flowId, userId, Some([b]))]), flowId, KeyOf(upper, a))
               == (if a.id == b.id then Found(a.id.value, b.config) else TriggerMissing)
            && ReadHook(first, PerformAll(upper, first, [Undeploy(flowId)]), flowId, KeyOf(upper, a)) == NotDeployed
  {
    var ops := [Start(flowId, userId, Some([a]))];
    var first := PerformAll(upper, Empty, ops);
    StartDeploys(upper, Empty, flowId, userId, [a], 0);
    StartDeploys(upper, first, flowId, userId, [b], 0);
    SnapshotIsLastWritten(upper, first, [Undeploy(flowId)], flowId);
    AlwaysAgrees(upper, ops);
    ConfigOfOne(b, a.id.value);
    hide PerformAll, KeyOf, TriggerNodeConfig, DistinctKeys;
    assert Rewrites(upper, [Undeploy(flowId)][0], flowId);
    assert IndexesSnapshot(upper, first, flowId);
    assert [a][0] == a;
    assert FindRoute(first, flowId, KeyOf(upper, a)).Some?;
  }

  lemma ConfigOfOne(n: CanvasNode, id: string)
    ensures TriggerNodeConfig([n], id) == if n.id == Some(id) then Some(n.config) else None
  {
  }

  // ---- What a trigger answers ----

  /** An http-in, webhook or webhook-trigger node with an id, on an unambiguous canvas that is
      deployed, answers its method, upper-cased, and its path in normal form; a node that names no
      method or path answers POST and the root. */
  lemma TriggerAnswers(upper: string -> string, t: Tables, flowId: Uuid, userId: Uuid, nodes: seq<CanvasNode>, i: nat,
                       w: string, k: nat, s: string, w': string)
    requires DistinctKeys(upper, nodes) && i < |nodes|
    requires nodes[i].nodeType in {"http-in", "webhook", "webhook-trigger"}
    requires nodes[i].id.Some? && nodes[i].id.value != ""
    requires AllWhite(w) && AllWhite(w') && IsCore(k, s)
    requires nodes[i].path == Some(w + Slashes(k) + s + w') || (nodes[i].path == None && s == [])
    ensures var after := PerformAll(upper, t, [Start(flowId, userId, Some(nodes))]);
            var verb := match nodes[i].verb { case Some(v) => v case None => "POST" };
            FindRoute(after, flowId, RouteKey(upper(verb), "/" + s)) == Some(HookMatch(userId, nodes[i].id.value))
  {
    var n := nodes[i];
    NormalFormOf(w, k, s, w');
    NormalFormOf([], 1, [], []);
    assert [] + Slashes(1) + [] + [] == "/";
    assert IsTrigger(n);
    assert KeyOf(upper, n) == RouteKey(upper(match n.verb { case Some(v) => v case None => "POST" }), "/" + s);
    var ops := [Start(flowId, userId, Some(nodes))];
    assert PerformAll(upper, t, ops) == Started(upper, t, flowId, userId, Some(nodes));
    RoutesAreTriggers(upper, nodes);
    DeployedRows(upper, t, flowId, userId, Some(nodes));
    hide PerformAll, RoutesOf, KeyOf, IsTrigger, Deployed, NormalizeHookPath;
    var r := HookRoute(KeyOf(upper, n), n.id.value, n.nodeType);
    assert r in RoutesOf(upper, nodes);
    assert FindRoute(Deployed(t, flowId, userId, Some(nodes), RoutesOf(upper, nodes)), flowId, r.key) ==
           Some(HookMatch(userId, r.nodeId));
  }

  /** Nodes of other types, or without an id, answer nothing. */
  lemma OthersAnswerNothing(upper: string -> string, t: Tables, flowId: Uuid, userId: Uuid, nodes: seq<CanvasNode>,
                            key: RouteKey)
    requires forall n <- nodes ::
               n.nodeType !in {"http-in", "webhook", "webhook-trigger"} || n.id.None? || n.id == Some("")
    ensures var after := PerformAll(upper, t, [Start(flowId, userId, Some(nodes))]);
            FindRoute(after, flowId, key) == None && flowId !in after.deployments
  {
    forall i | 0 <= i < |nodes| ensures !IsTrigger(nodes[i]) {
      assert nodes[i] in nodes;
    }
    RoutesAreTriggers(upper, nodes);
    var ops := [Start(flowId, userId, Some(nodes))];
    assert PerformAll(upper, t, ops) == Started(upper, t, flowId, userId, Some(nodes));
    hide PerformAll, IsTrigger, KeyOf;
    NoneInside(RoutesOf(upper, nodes));
  }

  lemma NoneInside(routes: seq<HookRoute>)
    ensures (forall r :: r !in routes) ==> routes == []
  {
    if routes != [] {
      assert routes[0] in routes;
    }
  }

  // ---- Flows that are deployed but no longer stored ----

  /** The operation deploys the flow. */
  ghost predicate Deploys(upper: string -> string, op: Op, flowId: Uuid) {
    Rewrites(upper, op, flowId) && op.Start? && RoutesOf(upper, Nodes(op.read)) != []
  }

  /** The operation at `i` deploys the flow, and none after it writes the flow's snapshot. */
  ghost predicate LastDeploys(upper: string -> string, ops: seq<Op>, flowId: Uuid, i: nat) {
    && i < |ops| && Deploys(upper, ops[i], flowId)
    && forall j :: i < j < |ops| ==> !Rewrites(upper, ops[j], flowId)
  }

  lemma {:induction false} DeployedIff(upper: string -> string, ops: seq<Op>, flowId: Uuid)
    ensures LastWritten(upper, None, ops, flowId).Some? <==> exists i :: LastDeploys(upper, ops, flowId, i)
  {
    hide Rewrites, RoutesOf;
    if ops != [] {
      var front, last := ops[..|ops| - 1], |ops| - 1;
      DeployedIff(upper, front, flowId);
      if Deploys(upper, ops[last], flowId) {
        assert LastDeploys(upper, ops, flowId, last);
      }
      forall i: nat | i < last ensures
        LastDeploys(upper, ops, flowId, i) <==>
            LastDeploys(upper, front, flowId, i) && !Rewrites(upper, ops[last], flowId)
      {
        assert front[i] == ops[i];
        assert forall j :: 0 <= j < last ==> front[j] == ops[j];
      }
    }
  }

  /** Every save of the flow is followed by its removal. */
  ghost predicate SavesUndone(ops: seq<Op>, flowId: Uuid) {
    forall i :: 0 <= i < |ops| && ops[i].Save? && ops[i].flowId == flowId ==> Forgotten(ops, flowId, i)
  }

  ghost predicate Forgotten(ops: seq<Op>, flowId: Uuid, i: nat) {
    exists j :: i < j < |ops| && ops[j] == Forget(flowId)
  }

  lemma {:induction false} StoredIff(upper: string -> string, ops: seq<Op>, flowId: Uuid)
    ensures flowId in PerformAll(upper, Empty, ops).flows <==> !SavesUndone(ops, flowId)
  {
    if ops != [] {
      var front, op := ops[..|ops| - 1], ops[|ops| - 1];
      StoredIff(upper, front, flowId);
      StoredStep(upper, PerformAll(upper, Empty, front), op, flowId);
      hide Perform;
      SavesUndoneStep(front, op, flowId);
      assert ops == front + [op];
    }
  }

  lemma StoredStep(upper: string -> string, t: Tables, op: Op, flowId: Uuid)
    ensures flowId in Perform(upper, t, op).flows <==>
            (op.Save? && op.flowId == flowId) || (flowId in t.flows && op != Forget(flowId))
  {
    hide DistinctKeys, RoutesOf, InsertRoutes, WithoutRoutes;
  }

  lemma SavesUndoneStep(ops: seq<Op>, op: Op, flowId: Uuid)
    ensures SavesUndone(ops + [op], flowId) <==>
            !(op.Save? && op.flowId == flowId) && (SavesUndone(ops, flowId) || op == Forget(flowId))
  {
    var longer := ops + [op];
    assert longer[|ops|] == op;
    assert forall i :: 0 <= i < |ops| ==> longer[i] == ops[i];
    forall i: nat | i < |ops| ensures Forgotten(longer, flowId, i) <==>
        Forgotten(ops, flowId, i) || op == Forget(flowId) {
      if op == Forget(flowId) {
        assert longer[|ops|] == Forget(flowId);
      }
      if Forgotten(ops, flowId, i) {
        var j :| i < j < |ops| && ops[j] == Forget(flowId);
        assert longer[j] == Forget(flowId);
      }
    }
  }

  /** Exactly when a flow is deployed although it is no longer stored: every save of it was followed
      by its removal, and the last operation to write its snapshot deployed it. */
  lemma DeployedButGoneIff(upper: string -> string, ops: seq<Op>, flowId: Uuid)
    ensures var t := PerformAll(upper, Empty, ops);
            flowId in t.deployments && flowId !in t.flows <==>
            SavesUndone(ops, flowId) && exists i :: LastDeploys(upper, ops, flowId, i)
  {
    SnapshotIsLastWritten(upper, Empty, ops, flowId);
    DeployedIff(upper, ops, flowId);
    StoredIff(upper, ops, flowId);
    hide PerformAll, LastDeploys, SavesUndone, LastWritten;
  }

  /** A start that read the flow before its deletion and deploys it afterwards: its route is live
      although the flow is gone. */
  lemma DeletedFlowStaysLive(upper: string -> string, flowId: Uuid, userId: Uuid, trigger: CanvasNode)
    requires IsTrigger(trigger)
    ensures var canvas := Some([trigger]);
            var ops := [Save(flowId, canvas), Forget(flowId), Undeploy(flowId), Start(flowId, userId, canvas)];
            var t := PerformAll(upper, Empty, ops);
            flowId !in t.flows && FindRoute(t, flowId, KeyOf(upper, trigger)) ==
                Some(HookMatch(userId, trigger.id.value))
  {
    var canvas := Some([trigger]);
    var start := Start(flowId, userId, canvas);
    var before := [Save(flowId, canvas), Forget(flowId), Undeploy(flowId)];
    var ops := before + [start];
    assert ops == [Save(flowId, canvas), Forget(flowId), Undeploy(flowId), start];
    assert ops[1] == Forget(flowId);
    assert Forgotten(ops, flowId, 0);
    StoredIff(upper, ops, flowId);
    var t := PerformAll(upper, Empty, before);
    assert ops[..|ops| - 1] == before;
    assert PerformAll(upper, Empty, ops) == Started(upper, t, flowId, userId, canvas);
    hide PerformAll;
    assert [trigger][..0] == [] && RoutesOf(upper, []) == [];
    assert RoutesOf(upper, [trigger]) == [HookRoute(KeyOf(upper, trigger), trigger.id.value, trigger.nodeType)];
    DeployedRows(upper, t, flowId, userId, canvas);
    hide Deployed, RoutesOf, KeyOf;
  }
}

/** The backend's code graph, backend/core/graph.py: `CodeGraph` fills a
    networkx `DiGraph` from every Python file's parsed structure (a file
    node, a node per function and class with a `contains` edge from its
    file, and `calls` edges resolved by name suffix) and exports it in the
    shape the canvas reads, without the `contains` edges. */
module CodeGraph {
  import opened Wrappers
  import opened Strings
  import opened Parser
  import ParserLaws
  import GraphView

  // ---------------------------------------------------------------------
  // The networkx DiGraph, as far as build_graph and get_frontend_data use it

  /** A node's attribute dictionary: one optional entry per key the code
      writes or reads. */
  datatype Attrs = Attrs(labelText: Option<string>, kind: Option<string>, parent: Option<string>,
                         args: Option<seq<string>>, returnsText: Option<string>)

  /** The empty dictionary `add_edge` gives an endpoint it has to create. */
  const NoAttrs := Attrs(None, None, None, None, None)

  function Or<T>(a: Option<T>, b: Option<T>): Option<T> {
    if a.Some? then a else b
  }

  /** `d.update(a)`: every key present in `a` replaces the one in `d`. */
  function Update(d: Attrs, a: Attrs): Attrs {
    Attrs(Or(a.labelText, d.labelText), Or(a.kind, d.kind), Or(a.parent, d.parent),
          Or(a.args, d.args), Or(a.returnsText, d.returnsText))
  }

  /** Nodes in insertion order with their attributes; edges in insertion
      order with their `type` attribute. */
  datatype DiGraph = DiGraph(nodes: seq<string>, attrs: map<string, Attrs>,
                             edges: seq<(string, string)>, edgeType: map<(string, string), string>)

  const EmptyGraph := DiGraph([], map[], [], map[])

  /** What networkx keeps true of every graph: each node is listed once,
      the listed nodes are those with attributes, the listed edges those
      with a type, and both ends of an edge are nodes. */
  ghost predicate WellFormed(g: DiGraph) {
    && (forall i, j :: 0 <= i < j < |g.nodes| ==> g.nodes[i] != g.nodes[j])
    && (forall n :: n in g.nodes <==> n in g.attrs)
    && (forall e :: e in g.edges <==> e in g.edgeType)
    && (forall e | e in g.edgeType :: e.0 in g.attrs && e.1 in g.attrs)
  }

  /** Every listed node has attributes (part of `WellFormed`). */
  predicate NodesHaveAttrs(g: DiGraph) {
    forall n | n in g.nodes :: n in g.attrs
  }

  /** No node has a `returns` attribute. */
  predicate NoReturns(g: DiGraph) {
    forall n | n in g.attrs :: g.attrs[n].returnsText == None
  }

  /** The graphs `build_graph` can leave. */
  ghost predicate Sound(g: DiGraph) {
    WellFormed(g) && NoReturns(g)
  }

  /** `add_node(n, **a)`: a new node is appended with `a`; an existing one
      keeps its place and has `a` merged into its attributes. */
  function AddNode(g: DiGraph, n: string, a: Attrs): DiGraph {
    if n in g.attrs then g.(attrs := g.attrs[n := Update(g.attrs[n], a)])
    else g.(nodes := g.nodes + [n], attrs := g.attrs[n := a])
  }

  /** The endpoint creation inside `add_edge`. */
  function EnsureNode(g: DiGraph, n: string): DiGraph {
    if n in g.attrs then g else g.(nodes := g.nodes + [n], attrs := g.attrs[n := NoAttrs])
  }

  /** `add_edge(u, v, type=t)`: missing endpoints become nodes with no
      attributes, a new edge is appended, and the edge's type becomes `t`
      whether or not it existed. */
  function AddEdge(g: DiGraph, u: string, v: string, t: string): DiGraph {
    var h := EnsureNode(EnsureNode(g, u), v);
    if (u, v) in h.edgeType then h.(edgeType := h.edgeType[(u, v) := t])
    else h.(edges := h.edges + [(u, v)], edgeType := h.edgeType[(u, v) := t])
  }

  // ---------------------------------------------------------------------
  // build_graph, one file at a time

  /** A discovered `.py` file: its path relative to the root, its base
      name, and what reading and parsing it gave. */
  datatype SourceFile = SourceFile(relPath: string, fileName: string, outcome: ParseOutcome)

  /** The id of a function or class node, `"{rel_path}::{name}"`. */
  function MemberId(rel: string, name: string): string {
    rel + "::" + name
  }

  function FileAttrs(fileName: string): Attrs {
    Attrs(Some(fileName), Some("file"), None, None, None)
  }

  function FunctionAttrs(rel: string, f: FunctionInfo): Attrs {
    Attrs(Some(f.name), Some("function"), Some(rel), Some(f.args), None)
  }

  function ClassAttrs(rel: string, c: ClassInfo): Attrs {
    Attrs(Some(c.name), Some("class"), Some(rel), None, None)
  }

  /** A function or class about to become a node: its id, its name and
      the attributes it is added with. */
  datatype Member = Member(id: string, name: string, attrs: Attrs)

  /** The functions' nodes. */
  function FunctionMembers(rel: string, fs: seq<FunctionInfo>): (r: seq<Member>)
    ensures |r| == |fs|
    ensures forall i :: 0 <= i < |r| ==> r[i] == Member(MemberId(rel, fs[i].name), fs[i].name, FunctionAttrs(rel, fs[i]))
  {
    seq(|fs|, i requires 0 <= i < |fs| => Member(MemberId(rel, fs[i].name), fs[i].name, FunctionAttrs(rel, fs[i])))
  }

  /** The classes' nodes. */
  function ClassMembers(rel: string, cs: seq<ClassInfo>): (r: seq<Member>)
    ensures |r| == |cs|
    ensures forall i :: 0 <= i < |r| ==> r[i] == Member(MemberId(rel, cs[i].name), cs[i].name, ClassAttrs(rel, cs[i]))
  {
    seq(|cs|, i requires 0 <= i < |cs| => Member(MemberId(rel, cs[i].name), cs[i].name, ClassAttrs(rel, cs[i])))
  }

  /** No member id is the file's id, and equal ids mean equal names. */
  ghost predicate IdsNameMembers(rel: string, ms: seq<Member>) {
    && (forall i :: 0 <= i < |ms| ==> ms[i].id != rel)
    && (forall i, j :: 0 <= i < |ms| && 0 <= j < |ms| && ms[i].id == ms[j].id ==> ms[i].name == ms[j].name)
  }

  /** Member ids differ from the file's id, and two of them are equal
      only when the names are. */
  lemma MemberIdsNamed(rel: string, ms: seq<Member>)
    requires forall i :: 0 <= i < |ms| ==> ms[i].id == MemberId(rel, ms[i].name)
    ensures IdsNameMembers(rel, ms)
  {
    forall i, j | 0 <= i < |ms| && 0 <= j < |ms| && ms[i].id == ms[j].id
      ensures ms[i].name == ms[j].name
    {
      MemberIdInjective(rel, ms[i].name, ms[j].name);
    }
    forall i | 0 <= i < |ms|
      ensures ms[i].id != rel
    {
      assert |ms[i].id| > |rel|;
    }
  }

  /** Different names give different member ids. */
  lemma MemberIdInjective(rel: string, a: string, b: string)
    requires MemberId(rel, a) == MemberId(rel, b)
    ensures a == b
  {
    assert a == MemberId(rel, a)[|rel| + 2..];
    assert b == MemberId(rel, b)[|rel| + 2..];
  }

  /** One iteration of the function or the class loop: the node, then the
      `contains` edge from the file. */
  function AddMember(g: DiGraph, rel: string, m: Member): (r: DiGraph)
  {
    AddEdge(AddNode(g, m.id, m.attrs), rel, m.id, "contains")
  }

  /** The whole function (or class) loop. */
  function AddMembers(g: DiGraph, rel: string, ms: seq<Member>): (r: DiGraph)
    decreases |ms|
  {
    if |ms| == 0 then g else AddMember(AddMembers(g, rel, ms[..|ms| - 1]), rel, ms[|ms| - 1])
  }

  /** The node a call's edges start from: the file for a global call,
      otherwise the caller's node in the same file. */
  function Source(rel: string, caller: string): string {
    if caller == "global" then rel else MemberId(rel, caller)
  }

  /** The nodes, in graph order, whose id ends with `suffix`. */
  function Matches(nodes: seq<string>, suffix: string): (r: seq<string>)
    ensures forall n :: n in r <==> n in nodes && EndsWith(n, suffix)
    decreases |nodes|
  {
    if |nodes| == 0 then []
    else
      var last := nodes[|nodes| - 1];
      Matches(nodes[..|nodes| - 1], suffix) + (if EndsWith(last, suffix) then [last] else [])
  }

  /** `calls` edges from `u` to each of `targets`, in order. */
  function AddEdgesTo(g: DiGraph, u: string, targets: seq<string>): (r: DiGraph)
    decreases |targets|
  {
    if |targets| == 0 then g
    else AddEdge(AddEdgesTo(g, u, targets[..|targets| - 1]), u, targets[|targets| - 1], "calls")
  }

  /** One iteration of the call loop: an edge to every node present whose
      id ends with `::callee`. */
  function AddCall(g: DiGraph, rel: string, c: CallInfo): (r: DiGraph)
  {
    AddEdgesTo(g, Source(rel, c.caller), Matches(g.nodes, "::" + c.callee))
  }

  function AddCalls(g: DiGraph, rel: string, calls: seq<CallInfo>): (r: DiGraph)
    decreases |calls|
  {
    if |calls| == 0 then g else AddCall(AddCalls(g, rel, calls[..|calls| - 1]), rel, calls[|calls| - 1])
  }

  /** A file's node, then its function and class nodes. */
  function Defined(g: DiGraph, f: SourceFile, unparse: Unparse): (r: DiGraph)
  {
    var st := FileRecords(f.outcome, unparse);
    var withFile := AddNode(g, f.relPath, FileAttrs(f.fileName));
    var withFunctions := AddMembers(withFile, f.relPath, FunctionMembers(f.relPath, st.functions));
    AddMembers(withFunctions, f.relPath, ClassMembers(f.relPath, st.classes))
  }

  /** Everything one file adds: its nodes, then its calls. */
  function FileStep(g: DiGraph, f: SourceFile, unparse: Unparse): (r: DiGraph)
  {
    AddCalls(Defined(g, f, unparse), f.relPath, FileRecords(f.outcome, unparse).calls)
  }

  function AddFiles(g: DiGraph, files: seq<SourceFile>, unparse: Unparse): (r: DiGraph)
    decreases |files|
  {
    if |files| == 0 then g else FileStep(AddFiles(g, files[..|files| - 1], unparse), files[|files| - 1], unparse)
  }

  /** The graph `build_graph` leaves: cleared, then, when the root exists,
      every file in walk order. */
  function BuildSpec(rootExists: bool, files: seq<SourceFile>, unparse: Unparse): (r: DiGraph)
    ensures !rootExists ==> r == EmptyGraph
  {
    if rootExists then AddFiles(EmptyGraph, files, unparse) else EmptyGraph
  }

  // ---------------------------------------------------------------------
  // get_frontend_data

  datatype FrontendNode = FrontendNode(id: string, kind: string, labelText: string, args: seq<string>,
                                       returnsText: string, parentNode: Option<string>, extent: Option<string>)

  datatype FrontendEdge = FrontendEdge(id: string, source: string, target: string, animated: bool,
                                       kind: string, labelText: string)

  function AttrsOf(g: DiGraph, n: string): Attrs {
    if n in g.attrs then g.attrs[n] else NoAttrs
  }

  /** The exported form of a node: present keys are exported as stored,
      absent keys take their defaults, and the node is confined to its
      parent exactly when the parent is a non-empty string. */
  function ExportNode(id: string, a: Attrs): (r: FrontendNode)
    ensures r.id == id && r.parentNode == a.parent
    ensures r.extent == Some("parent") <==> a.parent.Some? && a.parent.value != ""
    ensures r.extent.None? <==> !(a.parent.Some? && a.parent.value != "")
    ensures a.labelText.None? ==> r.labelText == id
    ensures a.kind.None? ==> r.kind == "default"
    ensures a.args.None? ==> r.args == []
    ensures a.returnsText.None? ==> r.returnsText == ""
    ensures a.labelText.Some? ==> r.labelText == a.labelText.value
    ensures a.kind.Some? ==> r.kind == a.kind.value
    ensures a.args.Some? ==> r.args == a.args.value
    ensures a.returnsText.Some? ==> r.returnsText == a.returnsText.value
  {
    FrontendNode(id, a.kind.GetOr("default"), a.labelText.GetOr(id), a.args.GetOr([]),
                 a.returnsText.GetOr(""), a.parent,
                 if a.parent.Some? && a.parent.value != "" then Some("parent") else None)
  }

  /** The edges leaving `u`, in the order they were first added. */
  function SuccessorsOf(edges: seq<(string, string)>, u: string): (r: seq<(string, string)>)
    ensures forall e :: e in r <==> e in edges && e.0 == u
    decreases |edges|
  {
    if |edges| == 0 then []
    else
      var last := edges[|edges| - 1];
      SuccessorsOf(edges[..|edges| - 1], u) + (if last.0 == u then [last] else [])
  }

  /** `graph.edges()`: node by node in node order, each node's edges in
      the order they were first added. */
  function EdgeView(nodes: seq<string>, edges: seq<(string, string)>): (r: seq<(string, string)>)
    ensures forall e :: e in r <==> e in edges && e.0 in nodes
    decreases |nodes|
  {
    if |nodes| == 0 then []
    else EdgeView(nodes[..|nodes| - 1], edges) + SuccessorsOf(edges, nodes[|nodes| - 1])
  }

  function TypeOf(g: DiGraph, e: (string, string)): Option<string> {
    if e in g.edgeType then Some(g.edgeType[e]) else None
  }

  function ExportEdge(g: DiGraph, e: (string, string)): FrontendEdge {
    FrontendEdge(e.0 + "-" + e.1, e.0, e.1, true, "smoothstep",
                 if TypeOf(g, e) == Some("calls") then "calls" else "")
  }

  /** The exported edges of `view`: the `contains` edges are skipped. */
  function ExportEdges(g: DiGraph, view: seq<(string, string)>): (r: seq<FrontendEdge>)
    ensures |r| <= |view|
    decreases |view|
  {
    if |view| == 0 then []
    else
      var last := view[|view| - 1];
      ExportEdges(g, view[..|view| - 1]) + (if TypeOf(g, last) == Some("contains") then [] else [ExportEdge(g, last)])
  }

  // ---------------------------------------------------------------------
  // The class

  class CodeGraph {
    var graph: DiGraph

    constructor ()
      ensures graph == EmptyGraph
    {
      graph := EmptyGraph;
    }

    /** `build_graph`: the graph is cleared, and stays empty when the root
        does not exist; otherwise every file is added in walk order. */
    method BuildGraph(rootExists: bool, files: seq<SourceFile>, unparse: Unparse)
      modifies this
      ensures graph == BuildSpec(rootExists, files, unparse) && Sound(graph)
      ensures !rootExists ==> graph == EmptyGraph
    {
      graph := EmptyGraph;
      if !rootExists {
        return;
      }
      var i := 0;
      while i < |files|
        invariant 0 <= i <= |files|
        invariant graph == AddFiles(EmptyGraph, files[..i], unparse)
        invariant Sound(graph)
      {
        FileStepSound(graph, files[i], unparse);
        AddFile(files[i], unparse);
        assert files[..i + 1][..i] == files[..i];
        i := i + 1;
      }
      assert files[..|files|] == files;
      BuildSpecSound(rootExists, files, unparse);
    }

    /** The body of the walk loop for one `.py` file. */
    method AddFile(f: SourceFile, unparse: Unparse)
      requires Sound(graph)
      modifies this
      ensures graph == FileStep(old(graph), f, unparse)
    {
      ghost var g0 := graph;
      var rel := f.relPath;
      graph := AddNode(graph, rel, FileAttrs(f.fileName));
      var structure := AnalyzeFileStructure(f.outcome, unparse);
      AddFunctionNodes(rel, structure.functions);
      AddClassNodes(rel, structure.classes);
      assert graph == Defined(g0, f, unparse);
      DefinedSound(g0, f, unparse);
      DefinedHasSources(g0, f, unparse);
      AddCallEdges(rel, structure.calls);
    }

    method AddFunctionNodes(rel: string, fs: seq<FunctionInfo>)
      modifies this
      ensures graph == AddMembers(old(graph), rel, FunctionMembers(rel, fs))
    {
      ghost var g0 := graph;
      ghost var ms := FunctionMembers(rel, fs);
      var i := 0;
      while i < |fs|
        invariant 0 <= i <= |fs|
        invariant graph == AddMembers(g0, rel, ms[..i])
      {
        AddMembersSnoc(g0, rel, ms, i);
        var funcId := MemberId(rel, fs[i].name);
        graph := AddNode(graph, funcId, FunctionAttrs(rel, fs[i]));
        graph := AddEdge(graph, rel, funcId, "contains");
        i := i + 1;
      }
      assert ms[..|fs|] == ms;
    }

    method AddClassNodes(rel: string, cs: seq<ClassInfo>)
      modifies this
      ensures graph == AddMembers(old(graph), rel, ClassMembers(rel, cs))
    {
      ghost var g0 := graph;
      ghost var ms := ClassMembers(rel, cs);
      var i := 0;
      while i < |cs|
        invariant 0 <= i <= |cs|
        invariant graph == AddMembers(g0, rel, ms[..i])
      {
        AddMembersSnoc(g0, rel, ms, i);
        var clsId := MemberId(rel, cs[i].name);
        graph := AddNode(graph, clsId, ClassAttrs(rel, cs[i]));
        graph := AddEdge(graph, rel, clsId, "contains");
        i := i + 1;
      }
      assert ms[..|cs|] == ms;
    }

    /** The call loop. Every call's source node is already present, so
        resolving a call adds no node while the node list is being
        iterated (networkx would raise otherwise). */
    method AddCallEdges(rel: string, calls: seq<CallInfo>)
      requires NodesHaveAttrs(graph)
      requires forall c | c in calls :: Source(rel, c.caller) in graph.attrs
      modifies this
      ensures graph == AddCalls(old(graph), rel, calls)
    {
      ghost var g0 := graph;
      var i := 0;
      while i < |calls|
        invariant 0 <= i <= |calls|
        invariant graph == AddCalls(g0, rel, calls[..i])
        invariant graph.nodes == g0.nodes && graph.attrs == g0.attrs
      {
        CallsKeepNodes(g0, rel, calls[..i + 1]);
        var sourceId := Source(rel, calls[i].caller);
        ResolveCall(sourceId, "::" + calls[i].callee);
        assert calls[..i + 1][..i] == calls[..i];
        i := i + 1;
      }
      assert calls[..|calls|] == calls;
    }

    /** The inner loop over the live node list. */
    method ResolveCall(sourceId: string, suffix: string)
      requires NodesHaveAttrs(graph) && sourceId in graph.attrs
      modifies this
      ensures graph == AddEdgesTo(old(graph), sourceId, Matches(old(graph).nodes, suffix))
    {
      ghost var g0 := graph;
      var j := 0;
      while j < |graph.nodes|
        invariant graph.nodes == g0.nodes && graph.attrs == g0.attrs
        invariant 0 <= j <= |graph.nodes|
        invariant graph == AddEdgesTo(g0, sourceId, Matches(g0.nodes[..j], suffix))
      {
        var node := graph.nodes[j];
        ghost var before := Matches(g0.nodes[..j], suffix);
        assert g0.nodes[..j + 1][..j] == g0.nodes[..j];
        if EndsWith(node, suffix) {
          assert node in g0.attrs;
          AddEdgeEffect(graph, sourceId, node, "calls");
          graph := AddEdge(graph, sourceId, node, "calls");
          assert Matches(g0.nodes[..j + 1], suffix) == before + [node];
          assert (before + [node])[..|before|] == before;
        } else {
          assert Matches(g0.nodes[..j + 1], suffix) == before;
        }
        j := j + 1;
      }
      assert g0.nodes[..|g0.nodes|] == g0.nodes;
    }

    /** `get_frontend_data`: every node exported in node order, then every
        edge in `graph.edges()` order except the `contains` edges. */
    method GetFrontendData() returns (nodes: seq<FrontendNode>, edges: seq<FrontendEdge>)
      ensures |nodes| == |graph.nodes|
      ensures forall i :: 0 <= i < |nodes| ==>
        nodes[i] == ExportNode(graph.nodes[i], AttrsOf(graph, graph.nodes[i]))
      ensures edges == ExportEdges(graph, EdgeView(graph.nodes, graph.edges))
    {
      nodes := ExportAllNodes(graph);
      edges := ExportViewEdges(graph, EdgeView(graph.nodes, graph.edges));
    }
  }

  /** The node loop of `get_frontend_data`. */
  method ExportAllNodes(g: DiGraph) returns (nodes: seq<FrontendNode>)
    ensures |nodes| == |g.nodes|
    ensures forall i :: 0 <= i < |nodes| ==> nodes[i] == ExportNode(g.nodes[i], AttrsOf(g, g.nodes[i]))
  {
    nodes := [];
    var i := 0;
    while i < |g.nodes|
      invariant 0 <= i <= |g.nodes|
      invariant |nodes| == i
      invariant forall k :: 0 <= k < i ==> nodes[k] == ExportNode(g.nodes[k], AttrsOf(g, g.nodes[k]))
    {
      var node := g.nodes[i];
      nodes := nodes + [ExportNode(node, AttrsOf(g, node))];
      i := i + 1;
    }
  }

  /** The edge loop of `get_frontend_data` over the edge view. */
  method ExportViewEdges(g: DiGraph, view: seq<(string, string)>) returns (edges: seq<FrontendEdge>)
    ensures edges == ExportEdges(g, view)
  {
    edges := [];
    var j := 0;
    while j < |view|
      invariant 0 <= j <= |view|
      invariant edges == ExportEdges(g, view[..j])
    {
      var e := view[j];
      assert view[..j + 1][..j] == view[..j];
      if TypeOf(g, e) != Some("contains") {
        edges := edges + [ExportEdge(g, e)];
      }
      j := j + 1;
    }
    assert view[..|view|] == view;
  }

  // ---------------------------------------------------------------------
  // What each phase does

  /** Every pair of `s` given the edge type `t`. */
  function Typed(s: set<(string, string)>, t: string): map<(string, string), string> {
    map e | e in s :: t
  }

  /** The pairs from `u` to each of `targets`. */
  function Pairs(u: string, targets: seq<string>): set<(string, string)> {
    set t | t in targets :: (u, t)
  }

  /** The pairs a file's call loop resolves: from each call's source to
      every node of `nodes` whose id ends with `::callee`. */
  function CallPairs(nodes: seq<string>, rel: string, calls: seq<CallInfo>): set<(string, string)> {
    set c, n | c in calls && n in nodes && EndsWith(n, "::" + c.callee) :: (Source(rel, c.caller), n)
  }

  /** The `contains` pairs from the file to each member. */
  function ContainsPairs(rel: string, ms: seq<Member>): set<(string, string)> {
    set i | 0 <= i < |ms| :: (rel, ms[i].id)
  }

  /** The ids of the member nodes. */
  function MemberIds(ms: seq<Member>): set<string> {
    set i | 0 <= i < |ms| :: ms[i].id
  }

  lemma UpdateAfterUnion<K, V>(a: map<K, V>, b: map<K, V>, k: K, v: V)
    ensures (a + b)[k := v] == a + b[k := v]
  {
  }

  lemma UnionAssoc<K, V>(a: map<K, V>, b: map<K, V>, c: map<K, V>)
    ensures (a + b) + c == a + (b + c)
  {
  }

  lemma TypedUnion(s: set<(string, string)>, p: set<(string, string)>, t: string)
    ensures Typed(s, t) + Typed(p, t) == Typed(s + p, t)
  {
  }

  /** One more member, added after the others. */
  lemma AddMembersSnoc(g: DiGraph, rel: string, ms: seq<Member>, i: nat)
    requires i < |ms|
    ensures AddMembers(g, rel, ms[..i + 1]) == AddMember(AddMembers(g, rel, ms[..i]), rel, ms[i])
  {
    assert ms[..i + 1][..i] == ms[..i];
  }

  lemma PairsSnoc(u: string, init: seq<string>, last: string)
    ensures Pairs(u, init + [last]) == Pairs(u, init) + {(u, last)}
  {
    assert forall t :: t in init + [last] <==> t in init || t == last;
  }

  /** With its source present and its targets present, a call's edges add
      no node and give every pair from `u` to a target the type `calls`. */
  lemma {:induction false} EdgesToEffect(g: DiGraph, u: string, targets: seq<string>)
    requires u in g.attrs
    requires forall t | t in targets :: t in g.attrs
    ensures var r := AddEdgesTo(g, u, targets);
      r.nodes == g.nodes && r.attrs == g.attrs && r.edgeType == g.edgeType + Typed(Pairs(u, targets), "calls")
    decreases |targets|
  {
    if |targets| > 0 {
      var init := targets[..|targets| - 1];
      var last := targets[|targets| - 1];
      assert targets == init + [last];
      assert forall t | t in init :: t in targets;
      EdgesToEffect(g, u, init);
      var mid := AddEdgesTo(g, u, init);
      assert last in mid.attrs;
      var r := AddEdge(mid, u, last, "calls");
      AddEdgeEffect(mid, u, last, "calls");
      assert AddEdgesTo(g, u, targets) == r;
      PairsSnoc(u, init, last);
      TypedSnoc(Pairs(u, init), (u, last), "calls");
      UpdateAfterUnion(g.edgeType, Typed(Pairs(u, init), "calls"), (u, last), "calls");
    }
  }

  /** The call loop adds no node, and gives every resolved pair the type
      `calls`, matching only the nodes present when it starts. */
  lemma {:induction false} CallsPhase(g: DiGraph, rel: string, calls: seq<CallInfo>)
    requires NodesHaveAttrs(g)
    requires forall c | c in calls :: Source(rel, c.caller) in g.attrs
    ensures var r := AddCalls(g, rel, calls);
      r.nodes == g.nodes && r.attrs == g.attrs
      && r.edgeType == g.edgeType + Typed(CallPairs(g.nodes, rel, calls), "calls")
    decreases |calls|
  {
    if |calls| > 0 {
      var init := calls[..|calls| - 1];
      var c := calls[|calls| - 1];
      assert calls == init + [c];
      assert forall x | x in init :: x in calls;
      CallsPhase(g, rel, init);
      var mid := AddCalls(g, rel, init);
      var u := Source(rel, c.caller);
      var targets := Matches(mid.nodes, "::" + c.callee);
      EdgesToEffect(mid, u, targets);
      assert CallPairs(g.nodes, rel, calls) == CallPairs(g.nodes, rel, init) + Pairs(u, targets);
      UnionAssoc(g.edgeType, Typed(CallPairs(g.nodes, rel, init), "calls"), Typed(Pairs(u, targets), "calls"));
      TypedUnion(CallPairs(g.nodes, rel, init), Pairs(u, targets), "calls");
    }
  }

  /** The call loop adds no node. */
  lemma CallsKeepNodes(g: DiGraph, rel: string, calls: seq<CallInfo>)
    requires NodesHaveAttrs(g)
    requires forall c | c in calls :: Source(rel, c.caller) in g.attrs
    ensures AddCalls(g, rel, calls).nodes == g.nodes && AddCalls(g, rel, calls).attrs == g.attrs
  {
    CallsPhase(g, rel, calls);
  }

  /** The attributes a member node ends up with. */
  predicate Shows(a: Attrs, name: string, kind: string, rel: string) {
    a.labelText == Some(name) && a.kind == Some(kind) && a.parent == Some(rel)
  }

  /** One more member adds its id and its `contains` pair. */
  lemma MembersSnoc(rel: string, init: seq<Member>, last: Member)
    ensures MemberIds(init + [last]) == MemberIds(init) + {last.id}
    ensures ContainsPairs(rel, init + [last]) == ContainsPairs(rel, init) + {(rel, last.id)}
  {
    var ms := init + [last];
    assert forall i | 0 <= i < |init| :: ms[i] == init[i];
    assert ms[|init|] == last;
  }

  /** Adding node `n` leaves every other node as it was and adds no other. */
  lemma AddNodeKeeps(g: DiGraph, n: string, a: Attrs)
    ensures var h := AddNode(g, n, a);
      && n in h.attrs
      && (forall k | k in g.attrs && k != n :: k in h.attrs && h.attrs[k] == g.attrs[k])
      && (forall k | k in h.attrs :: k in g.attrs || k == n)
  {
  }

  /** Adding a member's node shows it, whatever the node held before. */
  lemma AddNodeShows(g: DiGraph, m: Member, kind: string, rel: string)
    requires Shows(m.attrs, m.name, kind, rel)
    ensures var h := AddNode(g, m.id, m.attrs);
      m.id in h.attrs && Shows(h.attrs[m.id], m.name, kind, rel)
  {
  }

  lemma TypedSnoc(s: set<(string, string)>, k: (string, string), t: string)
    ensures Typed(s + {k}, t) == Typed(s, t)[k := t]
  {
  }

  /** The function (or class) loop: each member node carries its name, the
      loop's kind and the file as parent, the file gets a `contains` edge
      to it, and no other node changes. */
  lemma MembersPhase(g: DiGraph, rel: string, ms: seq<Member>, kind: string)
    requires rel in g.attrs && IdsNameMembers(rel, ms)
    requires forall i | 0 <= i < |ms| :: Shows(ms[i].attrs, ms[i].name, kind, rel)
    ensures var r := AddMembers(g, rel, ms);
      && (forall n | n in g.attrs :: n in r.attrs)
      && (forall n | n in r.attrs && n !in MemberIds(ms) :: n in g.attrs && r.attrs[n] == g.attrs[n])
      && (forall i | 0 <= i < |ms| :: ms[i].id in r.attrs && Shows(r.attrs[ms[i].id], ms[i].name, kind, rel))
      && r.edgeType == g.edgeType + Typed(ContainsPairs(rel, ms), "contains")
  {
    MembersNodes(g, rel, ms, kind);
    MembersEdges(g, rel, ms);
  }

  /** The nodes side of `MembersPhase`. */
  lemma {:induction false} MembersNodes(g: DiGraph, rel: string, ms: seq<Member>, kind: string)
    requires rel in g.attrs && IdsNameMembers(rel, ms)
    requires forall i | 0 <= i < |ms| :: Shows(ms[i].attrs, ms[i].name, kind, rel)
    ensures var r := AddMembers(g, rel, ms);
      && (forall n | n in g.attrs :: n in r.attrs)
      && (forall n | n in r.attrs && n !in MemberIds(ms) :: n in g.attrs && r.attrs[n] == g.attrs[n])
      && (forall i | 0 <= i < |ms| :: ms[i].id in r.attrs && Shows(r.attrs[ms[i].id], ms[i].name, kind, rel))
    decreases |ms|
  {
    if |ms| > 0 {
      var init := ms[..|ms| - 1];
      var last := ms[|ms| - 1];
      assert ms == init + [last];
      assert forall i | 0 <= i < |init| :: init[i] == ms[i];
      MembersNodes(g, rel, init, kind);
      var mid := AddMembers(g, rel, init);
      var h := AddNode(mid, last.id, last.attrs);
      var r := AddEdge(h, rel, last.id, "contains");
      assert AddMembers(g, rel, ms) == r;
      AddEdgeEffect(h, rel, last.id, "contains");
      MembersSnoc(rel, init, last);
      AddNodeShows(mid, last, kind, rel);
      AddNodeKeeps(mid, last.id, last.attrs);
      forall i | 0 <= i < |ms|
        ensures ms[i].id in r.attrs && Shows(r.attrs[ms[i].id], ms[i].name, kind, rel)
      {
        if i == |init| {
          assert ms[i] == last;
        } else if ms[i].id == last.id {
          assert ms[i].name == last.name;
        } else {
          assert ms[i] == init[i];
        }
      }
    }
  }

  /** The edges side of `MembersPhase`. */
  lemma {:induction false} MembersEdges(g: DiGraph, rel: string, ms: seq<Member>)
    requires rel in g.attrs
    ensures var r := AddMembers(g, rel, ms);
      rel in r.attrs && r.edgeType == g.edgeType + Typed(ContainsPairs(rel, ms), "contains")
    decreases |ms|
  {
    if |ms| > 0 {
      var init := ms[..|ms| - 1];
      var last := ms[|ms| - 1];
      assert ms == init + [last];
      MembersEdges(g, rel, init);
      var mid := AddMembers(g, rel, init);
      var h := AddNode(mid, last.id, last.attrs);
      AddNodeKeeps(mid, last.id, last.attrs);
      AddEdgeEffect(h, rel, last.id, "contains");
      MembersSnoc(rel, init, last);
      TypedSnoc(ContainsPairs(rel, init), (rel, last.id), "contains");
      UpdateAfterUnion(g.edgeType, Typed(ContainsPairs(rel, init), "contains"), (rel, last.id), "contains");
    }
  }

  /** The two member loops of a file, as `MembersPhase` states them. */
  lemma DefinedPhases(g: DiGraph, f: SourceFile, unparse: Unparse)
    ensures var st := FileRecords(f.outcome, unparse);
      var rel := f.relPath;
      var withFile := AddNode(g, rel, FileAttrs(f.fileName));
      var fm := FunctionMembers(rel, st.functions);
      var cm := ClassMembers(rel, st.classes);
      var withFunctions := AddMembers(withFile, rel, fm);
      var d := AddMembers(withFunctions, rel, cm);
      && d == Defined(g, f, unparse)
      && rel in withFile.attrs && withFile.attrs[rel].kind == Some("file")
      && withFile.attrs[rel].labelText == Some(f.fileName)
      && (forall n | n in g.attrs :: n in withFile.attrs)
      && IdsNameMembers(rel, fm) && IdsNameMembers(rel, cm)
      && (forall i | 0 <= i < |fm| :: Shows(fm[i].attrs, fm[i].name, "function", rel))
      && (forall i | 0 <= i < |cm| :: Shows(cm[i].attrs, cm[i].name, "class", rel))
  {
    var st := FileRecords(f.outcome, unparse);
    var rel := f.relPath;
    MemberIdsNamed(rel, FunctionMembers(rel, st.functions));
    MemberIdsNamed(rel, ClassMembers(rel, st.classes));
  }

  /** The file node is labelled with the file name and has type `file`,
      and no node present before is lost. */
  lemma DefinedFileNode(g: DiGraph, f: SourceFile, unparse: Unparse)
    ensures var d := Defined(g, f, unparse);
      && (forall n | n in g.attrs :: n in d.attrs)
      && f.relPath in d.attrs && d.attrs[f.relPath].kind == Some("file")
      && d.attrs[f.relPath].labelText == Some(f.fileName)
  {
    var st := FileRecords(f.outcome, unparse);
    var rel := f.relPath;
    var withFile := AddNode(g, rel, FileAttrs(f.fileName));
    var fm := FunctionMembers(rel, st.functions);
    var cm := ClassMembers(rel, st.classes);
    var withFunctions := AddMembers(withFile, rel, fm);
    DefinedPhases(g, f, unparse);
    MembersKeepFile(withFile, rel, fm, "function");
    MembersKeepFile(withFunctions, rel, cm, "class");
  }

  /** A member loop keeps every node and leaves the file node as it was. */
  lemma MembersKeepFile(g: DiGraph, rel: string, ms: seq<Member>, kind: string)
    requires rel in g.attrs && IdsNameMembers(rel, ms)
    requires forall i | 0 <= i < |ms| :: Shows(ms[i].attrs, ms[i].name, kind, rel)
    ensures var r := AddMembers(g, rel, ms);
      (forall n | n in g.attrs :: n in r.attrs) && rel in r.attrs && r.attrs[rel] == g.attrs[rel]
  {
    MembersPhase(g, rel, ms, kind);
    assert rel !in MemberIds(ms);
  }

  /** Every function node has its name as label and the file as parent,
      and type `function` unless a class of the file has the same name. */
  lemma DefinedFunctions(g: DiGraph, f: SourceFile, unparse: Unparse)
    ensures var st := FileRecords(f.outcome, unparse);
      var d := Defined(g, f, unparse);
      forall i | 0 <= i < |st.functions| ::
        var id := MemberId(f.relPath, st.functions[i].name);
        id in d.attrs && d.attrs[id].parent == Some(f.relPath) && d.attrs[id].labelText == Some(st.functions[i].name)
        && ((forall j | 0 <= j < |st.classes| :: st.classes[j].name != st.functions[i].name) ==>
              d.attrs[id].kind == Some("function"))
  {
    var st := FileRecords(f.outcome, unparse);
    var rel := f.relPath;
    var withFile := AddNode(g, rel, FileAttrs(f.fileName));
    var fm := FunctionMembers(rel, st.functions);
    var cm := ClassMembers(rel, st.classes);
    var withFunctions := AddMembers(withFile, rel, fm);
    var d := AddMembers(withFunctions, rel, cm);
    DefinedPhases(g, f, unparse);
    MembersPhase(withFile, rel, fm, "function");
    MembersPhase(withFunctions, rel, cm, "class");
    forall i | 0 <= i < |st.functions|
      ensures var id := MemberId(rel, st.functions[i].name);
        id in d.attrs && d.attrs[id].parent == Some(rel) && d.attrs[id].labelText == Some(st.functions[i].name)
        && ((forall j | 0 <= j < |st.classes| :: st.classes[j].name != st.functions[i].name) ==>
              d.attrs[id].kind == Some("function"))
    {
      var id := MemberId(rel, st.functions[i].name);
      assert fm[i].id == id;
      if id in MemberIds(cm) {
        var j :| 0 <= j < |cm| && cm[j].id == id;
        MemberIdInjective(rel, st.classes[j].name, st.functions[i].name);
        assert Shows(d.attrs[id], cm[j].name, "class", rel);
      }
    }
  }

  /** Every class node has its name as label, the file as parent and type
      `class`. */
  lemma DefinedClasses(g: DiGraph, f: SourceFile, unparse: Unparse)
    ensures var st := FileRecords(f.outcome, unparse);
      var d := Defined(g, f, unparse);
      forall i | 0 <= i < |st.classes| ::
        MemberId(f.relPath, st.classes[i].name) in d.attrs
        && Shows(d.attrs[MemberId(f.relPath, st.classes[i].name)], st.classes[i].name, "class", f.relPath)
  {
    var st := FileRecords(f.outcome, unparse);
    var rel := f.relPath;
    var withFile := AddNode(g, rel, FileAttrs(f.fileName));
    var fm := FunctionMembers(rel, st.functions);
    var cm := ClassMembers(rel, st.classes);
    var withFunctions := AddMembers(withFile, rel, fm);
    DefinedPhases(g, f, unparse);
    MembersPhase(withFile, rel, fm, "function");
    MembersPhase(withFunctions, rel, cm, "class");
    forall i | 0 <= i < |st.classes|
      ensures MemberId(rel, st.classes[i].name) in Defined(g, f, unparse).attrs
    {
      assert cm[i].id == MemberId(rel, st.classes[i].name);
    }
  }

  /** The member loops' edges: a `contains` edge from the file to each
      member, every other type kept. */
  lemma DefinedEdges(g: DiGraph, f: SourceFile, unparse: Unparse)
    ensures var st := FileRecords(f.outcome, unparse);
      Defined(g, f, unparse).edgeType
        == g.edgeType + Typed(ContainsPairs(f.relPath, FunctionMembers(f.relPath, st.functions)), "contains")
                      + Typed(ContainsPairs(f.relPath, ClassMembers(f.relPath, st.classes)), "contains")
  {
    var st := FileRecords(f.outcome, unparse);
    var rel := f.relPath;
    var withFile := AddNode(g, rel, FileAttrs(f.fileName));
    var fm := FunctionMembers(rel, st.functions);
    var cm := ClassMembers(rel, st.classes);
    var withFunctions := AddMembers(withFile, rel, fm);
    DefinedPhases(g, f, unparse);
    MembersPhase(withFile, rel, fm, "function");
    MembersPhase(withFunctions, rel, cm, "class");
  }

  /** Every source the file's calls name is a node once its functions
      and classes are in. */
  lemma DefinedHasSources(g: DiGraph, f: SourceFile, unparse: Unparse)
    ensures forall c | c in FileRecords(f.outcome, unparse).calls :: Source(f.relPath, c.caller) in Defined(g, f, unparse).attrs
  {
    var st := FileRecords(f.outcome, unparse);
    ParserLaws.FileRecordsWellScoped(f.outcome, unparse);
    forall c | c in st.calls
      ensures Source(f.relPath, c.caller) in Defined(g, f, unparse).attrs
    {
      SourcePresent(g, f, unparse, c.caller);
    }
  }

  /** The source of a call from the file's top level or from one of its
      functions or classes is a node. */
  lemma SourcePresent(g: DiGraph, f: SourceFile, unparse: Unparse, caller: string)
    requires caller == "global" || ParserLaws.Defines(FileRecords(f.outcome, unparse), caller)
    ensures Source(f.relPath, caller) in Defined(g, f, unparse).attrs
  {
    var st := FileRecords(f.outcome, unparse);
    if caller == "global" {
      DefinedFileNode(g, f, unparse);
    } else if exists fn :: fn in st.functions && fn.name == caller {
      var fn :| fn in st.functions && fn.name == caller;
      var i :| 0 <= i < |st.functions| && st.functions[i] == fn;
      DefinedFunctions(g, f, unparse);
    } else {
      var cl :| cl in st.classes && cl.name == caller;
      var i :| 0 <= i < |st.classes| && st.classes[i] == cl;
      DefinedClasses(g, f, unparse);
    }
  }

  // ---------------------------------------------------------------------
  // Every step keeps the graph sound

  /** `add_edge` between present nodes adds no node and sets one type. */
  lemma AddEdgeEffect(g: DiGraph, u: string, v: string, t: string)
    requires u in g.attrs && v in g.attrs
    ensures var r := AddEdge(g, u, v, t);
      r.nodes == g.nodes && r.attrs == g.attrs && r.edgeType == g.edgeType[(u, v) := t]
  {
  }

  lemma AddNodeSound(g: DiGraph, n: string, a: Attrs)
    requires Sound(g) && a.returnsText == None
    ensures Sound(AddNode(g, n, a))
  {
  }

  lemma EnsureNodeSound(g: DiGraph, n: string)
    requires Sound(g)
    ensures Sound(EnsureNode(g, n)) && n in EnsureNode(g, n).attrs
    ensures forall m | m in g.attrs :: m in EnsureNode(g, n).attrs
  {
  }

  lemma AddEdgeSound(g: DiGraph, u: string, v: string, t: string)
    requires Sound(g)
    ensures Sound(AddEdge(g, u, v, t))
  {
    EnsureNodeSound(g, u);
    EnsureNodeSound(EnsureNode(g, u), v);
  }

  lemma {:induction false} AddMembersSound(g: DiGraph, rel: string, ms: seq<Member>)
    requires Sound(g) && forall i :: 0 <= i < |ms| ==> ms[i].attrs.returnsText == None
    ensures Sound(AddMembers(g, rel, ms))
    decreases |ms|
  {
    if |ms| > 0 {
      var last := ms[|ms| - 1];
      AddMembersSound(g, rel, ms[..|ms| - 1]);
      var mid := AddMembers(g, rel, ms[..|ms| - 1]);
      AddNodeSound(mid, last.id, last.attrs);
      AddEdgeSound(AddNode(mid, last.id, last.attrs), rel, last.id, "contains");
    }
  }

  lemma {:induction false} AddEdgesToSound(g: DiGraph, u: string, targets: seq<string>)
    requires Sound(g)
    ensures Sound(AddEdgesTo(g, u, targets))
    decreases |targets|
  {
    if |targets| > 0 {
      AddEdgesToSound(g, u, targets[..|targets| - 1]);
      AddEdgeSound(AddEdgesTo(g, u, targets[..|targets| - 1]), u, targets[|targets| - 1], "calls");
    }
  }

  lemma {:induction false} AddCallsSound(g: DiGraph, rel: string, calls: seq<CallInfo>)
    requires Sound(g)
    ensures Sound(AddCalls(g, rel, calls))
    decreases |calls|
  {
    if |calls| > 0 {
      AddCallsSound(g, rel, calls[..|calls| - 1]);
      var mid := AddCalls(g, rel, calls[..|calls| - 1]);
      var c := calls[|calls| - 1];
      AddEdgesToSound(mid, Source(rel, c.caller), Matches(mid.nodes, "::" + c.callee));
    }
  }

  lemma DefinedSound(g: DiGraph, f: SourceFile, unparse: Unparse)
    requires Sound(g)
    ensures Sound(Defined(g, f, unparse))
  {
    var st := FileRecords(f.outcome, unparse);
    var withFile := AddNode(g, f.relPath, FileAttrs(f.fileName));
    AddNodeSound(g, f.relPath, FileAttrs(f.fileName));
    var fm := FunctionMembers(f.relPath, st.functions);
    AddMembersSound(withFile, f.relPath, fm);
    AddMembersSound(AddMembers(withFile, f.relPath, fm), f.relPath, ClassMembers(f.relPath, st.classes));
  }

  lemma FileStepSound(g: DiGraph, f: SourceFile, unparse: Unparse)
    requires Sound(g)
    ensures Sound(FileStep(g, f, unparse))
  {
    DefinedSound(g, f, unparse);
    AddCallsSound(Defined(g, f, unparse), f.relPath, FileRecords(f.outcome, unparse).calls);
  }

  lemma {:induction false} AddFilesSound(g: DiGraph, files: seq<SourceFile>, unparse: Unparse)
    requires Sound(g)
    ensures Sound(AddFiles(g, files, unparse))
    decreases |files|
  {
    if |files| > 0 {
      AddFilesSound(g, files[..|files| - 1], unparse);
      FileStepSound(AddFiles(g, files[..|files| - 1], unparse), files[|files| - 1], unparse);
    }
  }

  /** Whatever the files, the built graph is sound: in particular no node
      has a `returns` attribute. */
  lemma BuildSpecSound(rootExists: bool, files: seq<SourceFile>, unparse: Unparse)
    ensures Sound(BuildSpec(rootExists, files, unparse))
  {
    if rootExists {
      AddFilesSound(EmptyGraph, files, unparse);
    }
  }

  // ---------------------------------------------------------------------
  // What one file adds

  /** The call loop of a file adds no node and gives the type `calls` to
      exactly the resolved pairs: from each call's source to every node
      present once the file's own nodes are in (this file's and earlier
      files', never a later file's) whose id ends with `::callee`. */
  lemma FileStepCalls(g: DiGraph, f: SourceFile, unparse: Unparse)
    requires Sound(g)
    ensures var st := FileRecords(f.outcome, unparse);
      var d := Defined(g, f, unparse);
      var r := FileStep(g, f, unparse);
      r.nodes == d.nodes && r.attrs == d.attrs
      && r.edgeType == d.edgeType + Typed(CallPairs(d.nodes, f.relPath, st.calls), "calls")
  {
    DefinedSound(g, f, unparse);
    DefinedHasSources(g, f, unparse);
    CallsPhase(Defined(g, f, unparse), f.relPath, FileRecords(f.outcome, unparse).calls);
  }

  /** Each function and class of the file is linked from the file: the
      edge's type is `contains`, or `calls` when one of the file's calls
      resolved to that pair. */
  lemma FileStepLinksMembers(g: DiGraph, f: SourceFile, unparse: Unparse, name: string)
    requires Sound(g)
    requires (exists i :: 0 <= i < |FileRecords(f.outcome, unparse).functions|
                && FileRecords(f.outcome, unparse).functions[i].name == name)
          || (exists i :: 0 <= i < |FileRecords(f.outcome, unparse).classes|
                && FileRecords(f.outcome, unparse).classes[i].name == name)
    ensures var st := FileRecords(f.outcome, unparse);
      var e := (f.relPath, MemberId(f.relPath, name));
      var r := FileStep(g, f, unparse);
      e in r.edgeType
      && r.edgeType[e] == if e in CallPairs(Defined(g, f, unparse).nodes, f.relPath, st.calls) then "calls" else "contains"
  {
    var st := FileRecords(f.outcome, unparse);
    var e := (f.relPath, MemberId(f.relPath, name));
    var d := Defined(g, f, unparse);
    DefinedContainsMember(g, f, unparse, name);
    FileStepCalls(g, f, unparse);
    var calls := Typed(CallPairs(d.nodes, f.relPath, st.calls), "calls");
    assert e in d.edgeType + calls;
    assert (d.edgeType + calls)[e] == if e in calls then "calls" else d.edgeType[e];
  }

  /** Before the calls, the file's `contains` edge to each of its members
      is in place. */
  lemma DefinedContainsMember(g: DiGraph, f: SourceFile, unparse: Unparse, name: string)
    requires (exists i :: 0 <= i < |FileRecords(f.outcome, unparse).functions|
                && FileRecords(f.outcome, unparse).functions[i].name == name)
          || (exists i :: 0 <= i < |FileRecords(f.outcome, unparse).classes|
                && FileRecords(f.outcome, unparse).classes[i].name == name)
    ensures var e := (f.relPath, MemberId(f.relPath, name));
      e in Defined(g, f, unparse).edgeType && Defined(g, f, unparse).edgeType[e] == "contains"
  {
    var st := FileRecords(f.outcome, unparse);
    var rel := f.relPath;
    var fm := FunctionMembers(rel, st.functions);
    var cm := ClassMembers(rel, st.classes);
    var e := (rel, MemberId(rel, name));
    if exists i :: 0 <= i < |st.functions| && st.functions[i].name == name {
      var i :| 0 <= i < |st.functions| && st.functions[i].name == name;
      assert e == (rel, fm[i].id);
    } else {
      var i :| 0 <= i < |st.classes| && st.classes[i].name == name;
      assert e == (rel, cm[i].id);
    }
    DefinedContainsPair(g, f, unparse, e);
  }

  /** A pair from the file to one of its members has type `contains` once
      the member loops have run. */
  lemma DefinedContainsPair(g: DiGraph, f: SourceFile, unparse: Unparse, e: (string, string))
    requires var st := FileRecords(f.outcome, unparse);
      e in ContainsPairs(f.relPath, FunctionMembers(f.relPath, st.functions))
      || e in ContainsPairs(f.relPath, ClassMembers(f.relPath, st.classes))
    ensures e in Defined(g, f, unparse).edgeType && Defined(g, f, unparse).edgeType[e] == "contains"
  {
    var st := FileRecords(f.outcome, unparse);
    var t1 := Typed(ContainsPairs(f.relPath, FunctionMembers(f.relPath, st.functions)), "contains");
    var t2 := Typed(ContainsPairs(f.relPath, ClassMembers(f.relPath, st.classes)), "contains");
    DefinedEdges(g, f, unparse);
    assert e in t1 || e in t2;
    assert (g.edgeType + t1 + t2)[e] == "contains";
  }

  /** A node id always ends with `::name` for its own name. */
  lemma MemberIdEndsWithName(rel: string, name: string)
    ensures EndsWith(MemberId(rel, name), "::" + name)
  {
    var id := MemberId(rel, name);
    assert id[|id| - |"::" + name|..] == "::" + name;
  }

  /** A global call to one of the file's own functions turns the file's
      `contains` edge to it into a `calls` edge (the later `add_edge`
      overwrites the type), so the edge then appears in the export. */
  lemma GlobalCallRetypesContains(g: DiGraph, f: SourceFile, unparse: Unparse, i: nat, k: nat)
    requires Sound(g)
    requires i < |FileRecords(f.outcome, unparse).functions|
    requires k < |FileRecords(f.outcome, unparse).calls|
    requires FileRecords(f.outcome, unparse).calls[k]
               == CallInfo("global", FileRecords(f.outcome, unparse).functions[i].name)
    ensures var e := (f.relPath, MemberId(f.relPath, FileRecords(f.outcome, unparse).functions[i].name));
      e in FileStep(g, f, unparse).edgeType && FileStep(g, f, unparse).edgeType[e] == "calls"
  {
    var st := FileRecords(f.outcome, unparse);
    var rel := f.relPath;
    var name := st.functions[i].name;
    var d := Defined(g, f, unparse);
    DefinedSound(g, f, unparse);
    DefinedFunctions(g, f, unparse);
    MemberIdEndsWithName(rel, name);
    var c := st.calls[k];
    assert MemberId(rel, name) in d.nodes;
    assert (Source(rel, c.caller), MemberId(rel, name)) in CallPairs(d.nodes, rel, st.calls);
    FileStepLinksMembers(g, f, unparse, name);
  }

  // ---------------------------------------------------------------------
  // What the export shows

  /** Where an exported edge comes from in the view. */
  lemma {:induction false} ExportedFrom(g: DiGraph, view: seq<(string, string)>, i: nat) returns (j: nat)
    requires i < |ExportEdges(g, view)|
    ensures j < |view| && TypeOf(g, view[j]) != Some("contains") && ExportEdges(g, view)[i] == ExportEdge(g, view[j])
    decreases |view|
  {
    var init := view[..|view| - 1];
    if i < |ExportEdges(g, init)| {
      j := ExportedFrom(g, init, i);
      assert view[j] == init[j];
    } else {
      j := |view| - 1;
    }
  }

  /** Every edge of the view whose type is not `contains` is exported. */
  lemma {:induction false} ExportedCovers(g: DiGraph, view: seq<(string, string)>, j: nat)
    requires j < |view| && TypeOf(g, view[j]) != Some("contains")
    ensures ExportEdge(g, view[j]) in ExportEdges(g, view)
    decreases |view|
  {
    var init := view[..|view| - 1];
    if j < |view| - 1 {
      assert view[j] == init[j];
      ExportedCovers(g, init, j);
    }
  }

  /** An edge of a listed node whose type is not `contains` is exported,
      at position `i`. */
  lemma EdgeExported(g: DiGraph, e: (string, string)) returns (i: nat)
    requires e in g.edges && e.0 in g.nodes && TypeOf(g, e) != Some("contains")
    ensures i < |ExportEdges(g, EdgeView(g.nodes, g.edges))|
    ensures ExportEdges(g, EdgeView(g.nodes, g.edges))[i] == ExportEdge(g, e)
  {
    var view := EdgeView(g.nodes, g.edges);
    var out := ExportEdges(g, view);
    assert e in view;
    var j :| 0 <= j < |view| && view[j] == e;
    ExportedCovers(g, view, j);
    i :| 0 <= i < |out| && out[i] == ExportEdge(g, view[j]);
  }

  /** An exported edge is a listed edge whose type is not `contains`. */
  lemma ExportedEdge(g: DiGraph, i: nat)
    requires i < |ExportEdges(g, EdgeView(g.nodes, g.edges))|
    ensures var out := ExportEdges(g, EdgeView(g.nodes, g.edges));
      var e := (out[i].source, out[i].target);
      e in g.edges && TypeOf(g, e) != Some("contains") && out[i] == ExportEdge(g, e)
  {
    var view := EdgeView(g.nodes, g.edges);
    var j := ExportedFrom(g, view, i);
    assert view[j] in view;
  }

  /** An edge whose type is not `contains` is exported. */
  lemma TypedEdgeExported(g: DiGraph, e: (string, string))
    requires WellFormed(g) && e in g.edgeType && g.edgeType[e] != "contains"
    ensures exists i :: 0 <= i < |ExportEdges(g, EdgeView(g.nodes, g.edges))|
                        && ExportEdges(g, EdgeView(g.nodes, g.edges))[i].source == e.0
                        && ExportEdges(g, EdgeView(g.nodes, g.edges))[i].target == e.1
  {
    var i := EdgeExported(g, e);
  }

  /** Exactly the edges whose type is not `contains` are exported. */
  lemma ExportedEdgesExactly(g: DiGraph)
    requires WellFormed(g)
    ensures var out := ExportEdges(g, EdgeView(g.nodes, g.edges));
      forall e :: (e in g.edgeType && g.edgeType[e] != "contains")
                  <==> exists i :: 0 <= i < |out| && out[i].source == e.0 && out[i].target == e.1
  {
    var out := ExportEdges(g, EdgeView(g.nodes, g.edges));
    forall e | e in g.edgeType && g.edgeType[e] != "contains"
      ensures exists i :: 0 <= i < |out| && out[i].source == e.0 && out[i].target == e.1
    {
      TypedEdgeExported(g, e);
    }
    forall i | 0 <= i < |out|
      ensures (out[i].source, out[i].target) in g.edgeType && g.edgeType[(out[i].source, out[i].target)] != "contains"
    {
      ExportedEdge(g, i);
    }
  }

  /** Each exported edge is an edge of the graph with id `u-v`, animated,
      drawn as a smooth step, and labelled `calls` exactly when its type
      is `calls` (otherwise unlabelled). */
  lemma ExportedEdgeShape(g: DiGraph)
    requires WellFormed(g)
    ensures var out := ExportEdges(g, EdgeView(g.nodes, g.edges));
      forall i | 0 <= i < |out| ::
        && (out[i].source, out[i].target) in g.edgeType
        && out[i].id == out[i].source + "-" + out[i].target
        && out[i].animated && out[i].kind == "smoothstep"
        && (out[i].labelText == "calls" <==> g.edgeType[(out[i].source, out[i].target)] == "calls")
        && (out[i].labelText != "calls" ==> out[i].labelText == "")
  {
    var out := ExportEdges(g, EdgeView(g.nodes, g.edges));
    forall i | 0 <= i < |out|
      ensures (out[i].source, out[i].target) in g.edgeType && out[i] == ExportEdge(g, (out[i].source, out[i].target))
    {
      ExportedEdge(g, i);
    }
  }

  /** No node of a built graph has a `returns` entry, so every exported
      node carries returns `""` and its card shows `void`. */
  lemma BuiltNodesShowVoid(rootExists: bool, files: seq<SourceFile>, unparse: Unparse, n: string)
    requires n in BuildSpec(rootExists, files, unparse).nodes
    ensures var g := BuildSpec(rootExists, files, unparse);
      ExportNode(n, AttrsOf(g, n)).returnsText == ""
      && GraphView.ReturnsDisplay(Some(ExportNode(n, AttrsOf(g, n)).returnsText)) == "void"
  {
    BuildSpecSound(rootExists, files, unparse);
  }
}

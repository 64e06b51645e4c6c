/** `getLayoutedElements` in frontend/src/components/graph-view.tsx: the
    two-level layout of the canvas. Every file node becomes a container
    sized from its number of children, the call edges that cross files
    become "macro" edges between containers, dagre places the containers,
    and each file's children are stacked inside it in input order.

    Dagre is a library whose algorithm is not part of this model: it is a
    function parameter from the container boxes and the macro edges to a
    centre for each container it placed. */
module GraphLayout {
  import opened Wrappers
  import opened GraphView

  const FuncWidth: int := 280
  const FuncHeight: int := 90
  const FilePaddingX: int := 24
  const FilePaddingTop: int := 50
  const FilePaddingBottom: int := 24
  const Gap: int := 25
  const MinFileHeight: int := 140

  /** The layout engine: container boxes and macro edges to the centre of
      each container it placed. */
  type Dagre = (map<string, Size>, set<(string, string)>) -> map<string, Point>

  /** `nodes.filter(n => n.parentNode === parent)`, in input order. */
  function Siblings(nodes: seq<FlowNode>, parent: Option<string>): (r: seq<FlowNode>)
    ensures |r| <= |nodes|
    ensures forall n | n in r :: n in nodes && n.parentNode == parent
    ensures forall n | n in nodes && n.parentNode == parent :: n in r
  {
    if |nodes| == 0 then []
    else (if nodes[0].parentNode == parent then [nodes[0]] else []) + Siblings(nodes[1..], parent)
  }

  /** `siblings.findIndex(n => n.id === id)`: the first position holding
      `id`, or -1. */
  function IndexOfId(s: seq<FlowNode>, id: string): (k: int)
    ensures -1 <= k < |s|
    ensures k >= 0 ==> s[k].id == id && forall t :: 0 <= t < k ==> s[t].id != id
    ensures k == -1 ==> forall t :: 0 <= t < |s| ==> s[t].id != id
  {
    if |s| == 0 then -1
    else if s[0].id == id then 0
    else
      var k := IndexOfId(s[1..], id);
      if k < 0 then -1 else k + 1
  }

  /** `nodes.find(n => n.id === id)`: the first node with that id. */
  function FindNode(nodes: seq<FlowNode>, id: string): (r: Option<FlowNode>)
    ensures r.Some? ==> r.value in nodes && r.value.id == id
    ensures r.None? ==> forall n | n in nodes :: n.id != id
  {
    var k := IndexOfId(nodes, id);
    if k < 0 then None else Some(nodes[k])
  }

  /** A container's box: 328 wide and `50 + k*115 + 24` high for `k`
      children, but never lower than 140. */
  function FileBox(nodes: seq<FlowNode>, id: string): (b: Size)
    ensures b.width == FuncWidth + 2 * FilePaddingX == 328
    ensures b.height >= MinFileHeight
    ensures b.height >= FilePaddingTop + |Siblings(nodes, Some(id))| * (FuncHeight + Gap) + FilePaddingBottom
    ensures b.height == MinFileHeight
      || b.height == FilePaddingTop + |Siblings(nodes, Some(id))| * (FuncHeight + Gap) + FilePaddingBottom
  {
    var calculated := FilePaddingTop + |Siblings(nodes, Some(id))| * (FuncHeight + Gap) + FilePaddingBottom;
    Size(FuncWidth + FilePaddingX * 2, if calculated > MinFileHeight then calculated else MinFileHeight)
  }

  /** The ids of the file nodes (no parent) in `s`. */
  function FileIds(s: seq<FlowNode>): set<string> {
    if |s| == 0 then {}
    else FileIds(s[..|s| - 1]) + (if !HasParent(s[|s| - 1]) then {s[|s| - 1].id} else {})
  }

  /** The boxes handed to dagre: one per file id. */
  function Boxes(nodes: seq<FlowNode>): map<string, Size> {
    map id | id in FileIds(nodes) :: FileBox(nodes, id)
  }

  /** The boxes of the file nodes among the first `i` nodes. */
  function BoxesUpTo(nodes: seq<FlowNode>, i: nat): map<string, Size>
    requires i <= |nodes|
  {
    map id | id in FileIds(nodes[..i]) :: FileBox(nodes, id)
  }

  /** Taking one more node adds its box when it is a file node. */
  lemma BoxesStep(nodes: seq<FlowNode>, i: nat)
    requires i < |nodes|
    ensures BoxesUpTo(nodes, i + 1)
      == if HasParent(nodes[i]) then BoxesUpTo(nodes, i) else BoxesUpTo(nodes, i)[nodes[i].id := FileBox(nodes, nodes[i].id)]
  {
    assert nodes[..i + 1][..i] == nodes[..i];
    assert FileIds(nodes[..i + 1]) == FileIds(nodes[..i]) + (if !HasParent(nodes[i]) then {nodes[i].id} else {});
  }

  /** The macro edge one call edge contributes: between the parents of its
      two ends (each the first node with that id), when both ends exist,
      both have a parent and the parents differ. */
  function MacroEdge(nodes: seq<FlowNode>, e: FlowEdge): (r: Option<(string, string)>)
    ensures r.Some? <==>
      FindNode(nodes, e.source).Some? && FindNode(nodes, e.target).Some?
      && HasParent(FindNode(nodes, e.source).value) && HasParent(FindNode(nodes, e.target).value)
      && FindNode(nodes, e.source).value.parentNode != FindNode(nodes, e.target).value.parentNode
    ensures r.Some? ==>
      r.value.0 != r.value.1 && r.value.0 != "" && r.value.1 != ""
      && Some(r.value.0) == FindNode(nodes, e.source).value.parentNode
      && Some(r.value.1) == FindNode(nodes, e.target).value.parentNode
  {
    match (FindNode(nodes, e.source), FindNode(nodes, e.target))
    case (Some(s), Some(t)) =>
      if HasParent(s) && HasParent(t) && s.parentNode.value != t.parentNode.value
      then Some((s.parentNode.value, t.parentNode.value))
      else None
    case _ => None
  }

  /** All macro edges, as the set dagre's simple graph keeps. */
  function MacroEdges(nodes: seq<FlowNode>, edges: seq<FlowEdge>): set<(string, string)> {
    if |edges| == 0 then {}
    else
      var last := MacroEdge(nodes, edges[|edges| - 1]);
      MacroEdges(nodes, edges[..|edges| - 1]) + (if last.Some? then {last.value} else {})
  }

  /** A node as the final pass returns it. A file node carries its box as
      its style (set in place during sizing) and, when dagre placed it, the
      corner that puts its centre at dagre's centre, with zIndex 0. A child
      is the `index`-th card of its parent's stack. */
  function LayoutNode(nodes: seq<FlowNode>, centres: map<string, Point>, n: FlowNode): (r: FlowNode)
    ensures r.id == n.id && r.parentNode == n.parentNode && r.kind == n.kind && r.data == n.data
  {
    if !HasParent(n) then PlaceFile(nodes, centres, n)
    else PlaceCard(IndexOfId(Siblings(nodes, n.parentNode), n.id), n)
  }

  /** A file node: its box as style and, when dagre placed it, its corner. */
  function PlaceFile(nodes: seq<FlowNode>, centres: map<string, Point>, n: FlowNode): FlowNode {
    var box := FileBox(nodes, n.id);
    var styled := n.(style := Some(box));
    if n.id in centres then
      var c := centres[n.id];
      styled.(position := Some(Point(c.x - box.width as real / 2.0, c.y - box.height as real / 2.0)),
              zIndex := Some(0))
    else styled
  }

  /** The top of the `index`-th card of a container, below the padding and
      the cards before it. */
  function CardTop(index: int): int {
    FilePaddingTop + index * (FuncHeight + Gap)
  }

  /** The `index`-th card of a container's stack. */
  function PlaceCard(index: int, n: FlowNode): FlowNode {
    n.(position := Some(Point(FilePaddingX as real, CardTop(index) as real)),
       style := Some(Size(FuncWidth, FuncHeight)),
       zIndex := Some(10),
       extent := Some("parent"))
  }

  /** A node after the sizing pass: a file node's style is its box. */
  function Staged(nodes: seq<FlowNode>, n: FlowNode): FlowNode {
    if !HasParent(n) then n.(style := Some(FileBox(nodes, n.id))) else n
  }

  /** The size the sizing pass computes for the file node `id`: room for
      its stack of children, never below the minimum height. */
  method ContainerSize(nodes: seq<FlowNode>, id: string) returns (size: Size)
    ensures size == FileBox(nodes, id)
  {
    var children := Siblings(nodes, Some(id));
    var calculatedHeight := FilePaddingTop + |children| * (FuncHeight + Gap) + FilePaddingBottom;
    var finalHeight := if calculatedHeight > MinFileHeight then calculatedHeight else MinFileHeight;
    var calculatedWidth := FuncWidth + FilePaddingX * 2;
    size := Size(calculatedWidth, finalHeight);
  }

  /** The nodes while the sizing pass is at node `i`: the first `i`
      staged, the rest as they came. */
  function StagedUpTo(nodes: seq<FlowNode>, i: nat): (r: seq<FlowNode>)
    requires i <= |nodes|
    ensures |r| == |nodes|
  {
    seq(|nodes|, j requires 0 <= j < |nodes| => if j < i then Staged(nodes, nodes[j]) else nodes[j])
  }

  lemma StagedStep(nodes: seq<FlowNode>, i: nat)
    requires i < |nodes|
    ensures StagedUpTo(nodes, i + 1) == StagedUpTo(nodes, i)[i := Staged(nodes, nodes[i])]
  {
  }

  lemma StagedAll(nodes: seq<FlowNode>)
    ensures forall j :: 0 <= j < |nodes| ==> StagedUpTo(nodes, |nodes|)[j] == Staged(nodes, nodes[j])
  {
  }

  /** Step 1 of `getLayoutedElements`: each file node gets its box, both in
      the map handed to dagre and, in place, as its own style. */
  method SizeContainers(nodes: seq<FlowNode>) returns (staged: seq<FlowNode>, boxes: map<string, Size>)
    ensures |staged| == |nodes|
    ensures forall j :: 0 <= j < |nodes| ==> staged[j] == Staged(nodes, nodes[j])
    ensures boxes == Boxes(nodes)
  {
    staged := nodes;
    boxes := map[];
    var i := 0;
    while i < |nodes|
      invariant 0 <= i <= |nodes|
      invariant staged == StagedUpTo(nodes, i)
      invariant boxes == BoxesUpTo(nodes, i)
    {
      BoxesStep(nodes, i);
      StagedStep(nodes, i);
      ghost var before := staged;
      var fileNode := nodes[i];
      if !HasParent(fileNode) {
        var size := ContainerSize(nodes, fileNode.id);
        boxes := boxes[fileNode.id := size];
        staged := staged[i := fileNode.(style := Some(size))];
      }
      assert staged == StagedUpTo(nodes, i + 1);
      assert boxes == BoxesUpTo(nodes, i + 1);
      i := i + 1;
    }
    StagedAll(nodes);
    assert nodes[..i] == nodes;
    assert BoxesUpTo(nodes, i) == Boxes(nodes);
  }

  /** Step 2 of `getLayoutedElements`: the macro edges, added one call edge
      at a time. */
  method CollectMacroEdges(nodes: seq<FlowNode>, edges: seq<FlowEdge>) returns (macro: set<(string, string)>)
    ensures macro == MacroEdges(nodes, edges)
  {
    macro := {};
    var k := 0;
    while k < |edges|
      invariant 0 <= k <= |edges|
      invariant macro == MacroEdges(nodes, edges[..k])
    {
      assert edges[..k + 1][..k] == edges[..k];
      var sourceNode := FindNode(nodes, edges[k].source);
      var targetNode := FindNode(nodes, edges[k].target);
      if sourceNode.Some? && targetNode.Some?
        && HasParent(sourceNode.value) && HasParent(targetNode.value)
        && sourceNode.value.parentNode.value != targetNode.value.parentNode.value
      {
        macro := macro + {(sourceNode.value.parentNode.value, targetNode.value.parentNode.value)};
      }
      k := k + 1;
    }
    assert edges[..k] == edges;
  }

  /** The callback of step 3's map for one sized node. The sibling filter
      and `findIndex` read only ids and parents, which sizing leaves alone,
      so they look at `nodes`. */
  method PlaceNode(nodes: seq<FlowNode>, centres: map<string, Point>, original: FlowNode, node: FlowNode)
    returns (r: FlowNode)
    requires node == Staged(nodes, original)
    ensures r == LayoutNode(nodes, centres, original)
  {
    if !HasParent(node) {
      if node.id in centres {
        var pos := centres[node.id];
        var size := node.style.value;
        return node.(position := Some(Point(pos.x - size.width as real / 2.0,
                                            pos.y - size.height as real / 2.0)),
                     zIndex := Some(0));
      }
      return node;
    }
    var siblings := Siblings(nodes, node.parentNode);
    var index := IndexOfId(siblings, node.id);
    r := node.(position := Some(Point(FilePaddingX as real,
                                      (FilePaddingTop + index * (FuncHeight + Gap)) as real)),
               style := Some(Size(FuncWidth, FuncHeight)),
               zIndex := Some(10),
               extent := Some("parent"));
  }

  /** Step 3 of `getLayoutedElements`: the final map over the sized nodes. */
  method PlaceNodes(nodes: seq<FlowNode>, staged: seq<FlowNode>, centres: map<string, Point>)
    returns (layouted: seq<FlowNode>)
    requires |staged| == |nodes|
    requires forall j :: 0 <= j < |nodes| ==> staged[j] == Staged(nodes, nodes[j])
    ensures |layouted| == |nodes|
    ensures forall t :: 0 <= t < |nodes| ==> layouted[t] == LayoutNode(nodes, centres, nodes[t])
  {
    layouted := staged;
    var j := 0;
    while j < |nodes|
      invariant 0 <= j <= |nodes| && |layouted| == |nodes|
      invariant forall t :: 0 <= t < j ==> layouted[t] == LayoutNode(nodes, centres, nodes[t])
    {
      var placed := PlaceNode(nodes, centres, nodes[j], staged[j]);
      layouted := layouted[j := placed];
      j := j + 1;
    }
  }

  /** `getLayoutedElements`. The result is a map over `nodes` (same count,
      same order) and the edges come back as they went in. */
  method GetLayoutedElements(nodes: seq<FlowNode>, edges: seq<FlowEdge>, dagre: Dagre)
    returns (layouted: seq<FlowNode>, outEdges: seq<FlowEdge>)
    ensures outEdges == edges
    ensures |layouted| == |nodes|
    ensures forall i :: 0 <= i < |nodes| ==>
      layouted[i] == LayoutNode(nodes, dagre(Boxes(nodes), MacroEdges(nodes, edges)), nodes[i])
  {
    var staged, boxes := SizeContainers(nodes);
    var macro := CollectMacroEdges(nodes, edges);
    var centres := dagre(boxes, macro);
    layouted := PlaceNodes(nodes, staged, centres);
    outEdges := edges;
  }
}

/** The `GraphView` component's state in
    frontend/src/components/graph-view.tsx: the node and edge lists that
    ReactFlow draws, replaced when graph data arrives and rewritten by the
    hover handlers. */
module GraphCanvas {
  import opened Wrappers
  import opened GraphView
  import opened GraphLayout

  /** The incoming nodes with their drawing kind set by the classifier. */
  function Classified(raw: seq<FlowNode>): (r: seq<FlowNode>)
    ensures |r| == |raw|
    ensures forall i :: 0 <= i < |r| ==> r[i] == raw[i].(kind := Classify(raw[i]))
  {
    seq(|raw|, i requires 0 <= i < |raw| => raw[i].(kind := Classify(raw[i])))
  }

  class Canvas {
    var nodes: seq<FlowNode>
    var edges: seq<FlowEdge>

    constructor ()
      ensures nodes == [] && edges == []
    {
      nodes := [];
      edges := [];
    }

    /** The effect run when new graph data arrives: with no nodes nothing
        changes; otherwise the nodes are classified and laid out and the
        edges get their initial style. */
    method Load(initialNodes: seq<FlowNode>, initialEdges: seq<FlowEdge>, dagre: Dagre)
      modifies this
      ensures |initialNodes| == 0 ==> nodes == old(nodes) && edges == old(edges)
      ensures |initialNodes| > 0 ==>
        var raw := Classified(initialNodes);
        |nodes| == |raw|
        && (forall i :: 0 <= i < |raw| ==>
              nodes[i] == LayoutNode(raw, dagre(Boxes(raw), MacroEdges(raw, initialEdges)), raw[i]))
        && edges == StyleEdges(initialEdges)
      ensures |initialNodes| > 0 ==>
        |nodes| == |initialNodes|
        && forall i :: 0 <= i < |nodes| ==>
             nodes[i].id == initialNodes[i].id && nodes[i].kind == Classify(initialNodes[i])
    {
      if |initialNodes| > 0 {
        var rawNodes := Classified(initialNodes);
        var layoutedNodes, layoutedEdges := GetLayoutedElements(rawNodes, initialEdges, dagre);
        nodes := layoutedNodes;
        edges := StyleEdges(layoutedEdges);
      }
    }

    /** `onNodeMouseEnter` on node `x`. */
    method MouseEnter(x: string)
      modifies this
      ensures nodes == old(nodes) && edges == OnEnter(x, old(edges))
    {
      edges := OnEnter(x, edges);
    }

    /** `onNodeMouseLeave`. */
    method MouseLeave()
      modifies this
      ensures nodes == old(nodes) && edges == OnLeave(old(edges))
    {
      edges := OnLeave(edges);
    }
  }

  /** A fresh canvas loads data and the pointer enters `x` and leaves:
      while inside, exactly the edges touching `x` are highlighted (the
      first result); afterwards none is (the second). */
  method HoverScenario(initialNodes: seq<FlowNode>, initialEdges: seq<FlowEdge>, dagre: Dagre, x: string)
    returns (inside: seq<bool>, after: seq<bool>)
    requires |initialNodes| > 0
    ensures |inside| == |initialEdges| && |after| == |initialEdges|
    ensures forall i :: 0 <= i < |initialEdges| ==> (inside[i] <==> Touches(initialEdges[i], x))
    ensures forall i :: 0 <= i < |initialEdges| ==> !after[i]
  {
    var canvas := new Canvas();
    canvas.Load(initialNodes, initialEdges, dagre);
    DimmedStates(initialEdges);
    canvas.MouseEnter(x);
    EnterHighlightsExactly(x, StyleEdges(initialEdges));
    var entered := canvas.edges;
    inside := seq(|entered|, i requires 0 <= i < |entered| => entered[i].style == Some(Highlighted));
    canvas.MouseLeave();
    DimmedStates(entered);
    var left := canvas.edges;
    after := seq(|left|, i requires 0 <= i < |left| => left[i].style == Some(Highlighted));
  }
}

/** The graph canvas's data and its pure maps, from
    frontend/src/components/graph-view.tsx: ReactFlow nodes and edges, the
    node-kind classifier, the strings a function card shows, the initial
    edge styling and the hover reducers. An edge's look (stroke, width,
    opacity and arrow colour) is one of two styles. */
module GraphView {
  import opened Wrappers
  import opened Strings

  datatype Kind = FileKind | FunctionKind | ClassKind

  /** A card's `data`: its `label`, rendered `args` and `returns` summary. */
  datatype CardData = CardData(labelText: string, args: Option<seq<string>>, returnsText: Option<string>)

  /** A box's `style` (integer pixels) and a position (dagre's centres can
      be halves, so positions are reals). */
  datatype Size = Size(width: int, height: int)
  datatype Point = Point(x: real, y: real)

  /** A ReactFlow node; absent fields are `None`. */
  datatype FlowNode = FlowNode(
    id: string,
    kind: Kind,
    parentNode: Option<string>,
    data: CardData,
    style: Option<Size>,
    position: Option<Point>,
    zIndex: Option<int>,
    extent: Option<string>)

  datatype EdgeStyle = Dimmed | Highlighted

  /** A ReactFlow edge; `kind` is its `type` string and `labelText` its `label`. */
  datatype FlowEdge = FlowEdge(
    id: string,
    source: string,
    target: string,
    kind: string,
    labelText: Option<string>,
    animated: bool,
    style: Option<EdgeStyle>,
    zIndex: Option<int>)

  /** JavaScript truthiness of `node.parentNode`: present and not empty. */
  predicate HasParent(n: FlowNode) {
    n.parentNode.Some? && n.parentNode.value != ""
  }

  const ClassMarker: string := "::class"

  /** The kind a node is drawn as: a container when it has no parent, a
      class card when its id contains `::class`, a function card otherwise. */
  function Classify(n: FlowNode): (k: Kind)
    ensures k == FileKind <==> !HasParent(n)
    ensures k == ClassKind <==> HasParent(n) && Contains(n.id, ClassMarker)
    ensures k == FunctionKind <==> HasParent(n) && !Contains(n.id, ClassMarker)
  {
    if !HasParent(n) then FileKind
    else if Contains(n.id, ClassMarker) then ClassKind
    else FunctionKind
  }

  /** A card's argument line: `"void"` without arguments, otherwise the
      arguments joined by `", "`. */
  function ArgsDisplay(args: Option<seq<string>>): (s: string)
    ensures args.None? || args == Some([]) ==> s == "void"
  {
    if args.Some? && |args.value| > 0 then Join(args.value, ", ") else "void"
  }

  /** A card's return line: the summary itself unless it is missing, empty
      or `"None"`, which all show as `"void"`. */
  function ReturnsDisplay(returnsText: Option<string>): (s: string)
    ensures s != "" && s != "None"
    ensures s == "void" <==> returnsText.None? || returnsText.value in {"", "None", "void"}
    ensures s != "void" ==> returnsText == Some(s)
  {
    if returnsText.Some? && returnsText.value != "None" && returnsText.value != "" then returnsText.value
    else "void"
  }

  /** Every argument appears on the card's argument line. */
  lemma ArgsDisplayShowsEach(args: seq<string>, i: nat)
    requires i < |args|
    ensures Contains(ArgsDisplay(Some(args)), args[i])
  {
    JoinContainsEach(args, ", ", i);
  }

  /** The edges as first drawn: every edge becomes an animated `default`
      edge in the dimmed style; its ends, id, label and stacking are kept. */
  function StyleEdges(edges: seq<FlowEdge>): (r: seq<FlowEdge>)
    ensures |r| == |edges|
    ensures forall i :: 0 <= i < |r| ==>
      r[i] == edges[i].(kind := "default", animated := true, style := Some(Dimmed))
  {
    seq(|edges|, i requires 0 <= i < |edges| =>
      edges[i].(kind := "default", animated := true, style := Some(Dimmed)))
  }

  predicate Touches(e: FlowEdge, x: string) {
    e.source == x || e.target == x
  }

  /** `onNodeMouseEnter` on node `x`: every edge touching `x` takes the
      highlighted style and zIndex 999; every other edge is left as it is. */
  function OnEnter(x: string, edges: seq<FlowEdge>): (r: seq<FlowEdge>)
    ensures |r| == |edges|
    ensures forall i :: 0 <= i < |r| && Touches(edges[i], x) ==>
      r[i] == edges[i].(style := Some(Highlighted), zIndex := Some(999))
    ensures forall i :: 0 <= i < |r| && !Touches(edges[i], x) ==> r[i] == edges[i]
  {
    if |edges| == 0 then []
    else
      var e := edges[0];
      [if Touches(e, x) then e.(style := Some(Highlighted), zIndex := Some(999)) else e]
        + OnEnter(x, edges[1..])
  }

  /** `onNodeMouseLeave`: every edge back to the dimmed style, zIndex 0. */
  function OnLeave(edges: seq<FlowEdge>): (r: seq<FlowEdge>)
    ensures |r| == |edges|
    ensures forall i :: 0 <= i < |r| ==>
      r[i] == edges[i].(style := Some(Dimmed), zIndex := Some(0))
  {
    if |edges| == 0 then []
    else [edges[0].(style := Some(Dimmed), zIndex := Some(0))] + OnLeave(edges[1..])
  }

  predicate NoneHighlighted(edges: seq<FlowEdge>) {
    forall i :: 0 <= i < |edges| ==> edges[i].style != Some(Highlighted)
  }

  /** Leaving is idempotent. */
  lemma LeaveIdempotent(edges: seq<FlowEdge>)
    ensures OnLeave(OnLeave(edges)) == OnLeave(edges)
  {
  }

  /** Leaving forgets any earlier hover: the state after enter-then-leave is
      the state after leave alone. */
  lemma LeaveUndoesEnter(x: string, edges: seq<FlowEdge>)
    ensures OnLeave(OnEnter(x, edges)) == OnLeave(edges)
  {
  }

  /** Entering the same node twice is the same as entering it once. */
  lemma EnterIdempotent(x: string, edges: seq<FlowEdge>)
    ensures OnEnter(x, OnEnter(x, edges)) == OnEnter(x, edges)
  {
  }

  /** From a state with nothing highlighted (as first drawn, or after a
      leave), entering `x` highlights exactly the edges touching `x`. */
  lemma EnterHighlightsExactly(x: string, edges: seq<FlowEdge>)
    requires NoneHighlighted(edges)
    ensures forall i :: 0 <= i < |edges| ==>
      (OnEnter(x, edges)[i].style == Some(Highlighted) <==> Touches(edges[i], x))
  {
  }

  /** The edges as first drawn have nothing highlighted, nor do they after
      a leave. */
  lemma DimmedStates(edges: seq<FlowEdge>)
    ensures NoneHighlighted(StyleEdges(edges))
    ensures NoneHighlighted(OnLeave(edges))
  {
  }

  /** The id of a backend class node, `path::Name`, carries no `::class`
      marker: as long as neither the path nor the name has a colon, it is
      drawn as a class exactly when the name itself begins with `class`. A
      class `Parser` is therefore drawn as a function card, and a function
      `class_helper` as a class card. */
  lemma {:induction false} BackendIdKind(path: string, name: string)
    requires ':' !in path && ':' !in name
    ensures Contains(path + "::" + name, ClassMarker) <==> StartsWith(name, "class")
  {
    assert path + "::" + name == path + ("::" + name);
    SkipColonFree(path, "::" + name, ClassMarker);
    assert ("::" + name)[1..] == ":" + name;
    assert (":" + name)[1..] == name;
    ColonFreeLacks(name, ClassMarker);
    assert Contains(":" + name, ClassMarker) == StartsWith(":" + name, ClassMarker) || Contains(name, ClassMarker);
    assert Contains("::" + name, ClassMarker) == StartsWith("::" + name, ClassMarker) || Contains(":" + name, ClassMarker);
    assert !StartsWith(":" + name, ClassMarker) by {
      if |ClassMarker| <= |":" + name| {
        assert (":" + name)[1] != ':';
        assert ClassMarker[1] == ':';
      }
    }
    assert StartsWith("::" + name, ClassMarker) <==> StartsWith(name, "class") by {
      if StartsWith(name, "class") {
        assert ("::" + name)[..7] == "::" + name[..5];
      }
      if StartsWith("::" + name, ClassMarker) {
        assert ("::" + name)[..7][2..] == name[..5];
      }
    }
  }

  /** A string without colons contains nothing that starts with a colon. */
  lemma {:induction false} ColonFreeLacks(s: string, sub: string)
    requires ':' !in s && |sub| > 0 && sub[0] == ':'
    ensures !Contains(s, sub)
    decreases |s|
  {
    if 0 < |sub| <= |s| {
      assert s[..|sub|][0] == s[0] != sub[0];
    }
    if |s| > 0 {
      ColonFreeLacks(s[1..], sub);
    }
  }

  /** A colon-free prefix cannot hold the start of a match of a pattern that
      starts with a colon. */
  lemma {:induction false} SkipColonFree(p: string, s: string, sub: string)
    requires ':' !in p && |sub| > 0 && sub[0] == ':'
    ensures Contains(p + s, sub) <==> Contains(s, sub)
    decreases |p|
  {
    if |p| > 0 {
      assert (p + s)[1..] == p[1..] + s;
      assert !StartsWith(p + s, sub) by {
        if |sub| <= |p + s| {
          assert (p + s)[..|sub|][0] == p[0] != sub[0];
        }
      }
      SkipColonFree(p[1..], s, sub);
    } else {
      assert p + s == s;
    }
  }
}

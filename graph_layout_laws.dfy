/** What the canvas layout guarantees: which containers dagre is asked to
    place, which macro edges it sees, where a placed container lands, and
    that each file's cards stack inside their container in input order
    without overlapping. */
module GraphLayoutLaws {
  import opened Wrappers
  import opened GraphView
  import opened GraphLayout

  /** Backend node ids are graph keys, hence distinct. */
  predicate IdsDistinct(nodes: seq<FlowNode>) {
    forall i, j :: 0 <= i < j < |nodes| ==> nodes[i].id != nodes[j].id
  }

  lemma {:induction false} SiblingsConcat(a: seq<FlowNode>, b: seq<FlowNode>, p: Option<string>)
    ensures Siblings(a + b, p) == Siblings(a, p) + Siblings(b, p)
    decreases |a|
  {
    if |a| == 0 {
      assert a + b == b;
    } else {
      assert (a + b)[1..] == a[1..] + b;
      SiblingsConcat(a[1..], b, p);
    }
  }

  /** dagre is asked to place exactly the file nodes' ids. */
  lemma {:induction false} FileIdsExactly(s: seq<FlowNode>, id: string)
    ensures id in FileIds(s) <==> exists n :: n in s && !HasParent(n) && n.id == id
    decreases |s|
  {
    if |s| > 0 {
      var init := s[..|s| - 1];
      FileIdsExactly(init, id);
      assert s == init + [s[|s| - 1]];
      if id in FileIds(init) {
        var n :| n in init && !HasParent(n) && n.id == id;
        assert n in s;
      }
      if exists n :: n in s && !HasParent(n) && n.id == id {
        var n :| n in s && !HasParent(n) && n.id == id;
        if n != s[|s| - 1] {
          assert n in init;
        }
      }
    }
  }

  /** Every file node has a box of width 328, whose height grows with its
      number of children and is at least 140; nothing else has a box. */
  lemma BoxesExactly(nodes: seq<FlowNode>, id: string)
    ensures id in Boxes(nodes) <==> exists n :: n in nodes && !HasParent(n) && n.id == id
    ensures id in Boxes(nodes) ==>
      Boxes(nodes)[id].width == 328
      && Boxes(nodes)[id].height >= MinFileHeight
      && Boxes(nodes)[id].height >= 74 + 115 * |Siblings(nodes, Some(id))|
  {
    FileIdsExactly(nodes, id);
  }

  /** A pair is a macro edge exactly when some call edge contributes it. */
  lemma {:induction false} MacroEdgesExactly(nodes: seq<FlowNode>, edges: seq<FlowEdge>, pq: (string, string))
    ensures pq in MacroEdges(nodes, edges) <==>
      exists i :: 0 <= i < |edges| && MacroEdge(nodes, edges[i]) == Some(pq)
    decreases |edges|
  {
    if |edges| > 0 {
      var init := edges[..|edges| - 1];
      MacroEdgesExactly(nodes, init, pq);
      if pq in MacroEdges(nodes, init) {
        var i :| 0 <= i < |init| && MacroEdge(nodes, init[i]) == Some(pq);
        assert edges[i] == init[i];
      }
      if exists i :: 0 <= i < |edges| && MacroEdge(nodes, edges[i]) == Some(pq) {
        var i :| 0 <= i < |edges| && MacroEdge(nodes, edges[i]) == Some(pq);
        if i < |edges| - 1 {
          assert init[i] == edges[i];
        }
      }
    }
  }

  /** Macro edges join two different, named containers; a call edge with a
      missing end, or an end without a parent, contributes nothing. */
  lemma MacroEdgesBetweenFiles(nodes: seq<FlowNode>, edges: seq<FlowEdge>, pq: (string, string))
    requires pq in MacroEdges(nodes, edges)
    ensures pq.0 != pq.1 && pq.0 != "" && pq.1 != ""
    ensures exists i, s, t :: (0 <= i < |edges| && s in nodes && t in nodes
      && s.id == edges[i].source && t.id == edges[i].target
      && s.parentNode == Some(pq.0) && t.parentNode == Some(pq.1))
  {
    MacroEdgesExactly(nodes, edges, pq);
    var i :| 0 <= i < |edges| && MacroEdge(nodes, edges[i]) == Some(pq);
    var s := FindNode(nodes, edges[i].source).value;
    var t := FindNode(nodes, edges[i].target).value;
    assert s in nodes && t in nodes;
  }

  /** A container dagre placed has its box as its style and its centre at
      dagre's centre; one it did not place keeps its position and only
      gains its style. */
  lemma ContainerPlacement(nodes: seq<FlowNode>, centres: map<string, Point>, n: FlowNode)
    requires !HasParent(n)
    ensures LayoutNode(nodes, centres, n).style == Some(FileBox(nodes, n.id))
    ensures n.id in centres ==>
      var r := LayoutNode(nodes, centres, n);
      r.position.Some? && r.zIndex == Some(0)
      && r.position.value.x + FileBox(nodes, n.id).width as real / 2.0 == centres[n.id].x
      && r.position.value.y + FileBox(nodes, n.id).height as real / 2.0 == centres[n.id].y
    ensures n.id !in centres ==>
      LayoutNode(nodes, centres, n) == n.(style := Some(FileBox(nodes, n.id)))
  {
  }

  /** A card's stack index: a node present in the input is found among its
      siblings, at a position below their number. */
  lemma StackIndexInRange(nodes: seq<FlowNode>, n: FlowNode)
    requires n in nodes
    ensures 0 <= IndexOfId(Siblings(nodes, n.parentNode), n.id) < |Siblings(nodes, n.parentNode)|
  {
    var s := Siblings(nodes, n.parentNode);
    assert n in s;
    var t :| 0 <= t < |s| && s[t] == n;
    assert s[t].id == n.id;
  }

  /** Every card lies inside its container: 24 from the left and 280 wide
      in a 328-wide box, below the 50-pixel header and at least the bottom
      padding above the box's lower edge. */
  lemma CardInsideContainer(nodes: seq<FlowNode>, centres: map<string, Point>, n: FlowNode)
    requires n in nodes && HasParent(n)
    ensures var r := LayoutNode(nodes, centres, n);
      var box := FileBox(nodes, n.parentNode.value);
      r.style == Some(Size(FuncWidth, FuncHeight)) && r.zIndex == Some(10) && r.extent == Some("parent")
      && r.position.Some?
      && r.position.value.x == FilePaddingX as real
      && r.position.value.x + FuncWidth as real <= box.width as real
      && r.position.value.y >= FilePaddingTop as real
      && r.position.value.y + (FuncHeight + FilePaddingBottom) as real <= box.height as real
  {
    StackIndexInRange(nodes, n);
    var k := IndexOfId(Siblings(nodes, n.parentNode), n.id);
    var count := |Siblings(nodes, n.parentNode)|;
    assert k <= count - 1;
    assert FilePaddingTop + k * (FuncHeight + Gap) + FuncHeight + FilePaddingBottom
      <= FilePaddingTop + count * (FuncHeight + Gap) + FilePaddingBottom;
  }

  /** With distinct ids, a card's stack index is the number of its
      siblings that come before it in the input. */
  lemma StackIndexCountsEarlierSiblings(nodes: seq<FlowNode>, i: nat)
    requires IdsDistinct(nodes) && i < |nodes|
    ensures IndexOfId(Siblings(nodes, nodes[i].parentNode), nodes[i].id)
      == |Siblings(nodes[..i], nodes[i].parentNode)|
  {
    var p := nodes[i].parentNode;
    var before := nodes[..i];
    assert nodes == before + ([nodes[i]] + nodes[i + 1..]);
    SiblingsConcat(before, [nodes[i]] + nodes[i + 1..], p);
    SiblingsConcat([nodes[i]], nodes[i + 1..], p);
    assert Siblings([nodes[i]], p) == [nodes[i]] by {
      assert [nodes[i]][1..] == [];
    }
    var s1 := Siblings(before, p);
    var s := Siblings(nodes, p);
    assert s == s1 + ([nodes[i]] + Siblings(nodes[i + 1..], p));
    assert s[|s1|] == nodes[i];
    forall t | 0 <= t < |s1|
      ensures s[t].id != nodes[i].id
    {
      assert s[t] == s1[t] && s1[t] in before;
      var u :| 0 <= u < i && before[u] == s1[t];
    }
  }

  /** A card's vertical offset in its container. */
  lemma CardOffset(nodes: seq<FlowNode>, centres: map<string, Point>, n: FlowNode)
    requires HasParent(n)
    ensures LayoutNode(nodes, centres, n).position
      == Some(Point(FilePaddingX as real, CardTop(IndexOfId(Siblings(nodes, n.parentNode), n.id)) as real))
  {
    assert LayoutNode(nodes, centres, n) == PlaceCard(IndexOfId(Siblings(nodes, n.parentNode), n.id), n);
  }

  /** A sibling earlier in the input has fewer siblings before it. */
  lemma EarlierSiblingsGrow(nodes: seq<FlowNode>, i: nat, j: nat)
    requires i < j <= |nodes|
    ensures |Siblings(nodes[..i], nodes[i].parentNode)| < |Siblings(nodes[..j], nodes[i].parentNode)|
  {
    var p := nodes[i].parentNode;
    assert nodes[..j] == nodes[..i] + ([nodes[i]] + nodes[i + 1..j]);
    SiblingsConcat(nodes[..i], [nodes[i]] + nodes[i + 1..j], p);
    SiblingsConcat([nodes[i]], nodes[i + 1..j], p);
    assert Siblings([nodes[i]], p) == [nodes[i]] by {
      assert [nodes[i]][1..] == [];
    }
  }

  /** Cards of one container stack in input order, each at least
      `FUNC_HEIGHT + GAP` = 115 below the one before, so that no two
      overlap. */
  lemma CardsStackInOrder(nodes: seq<FlowNode>, centres: map<string, Point>, i: nat, j: nat)
    requires IdsDistinct(nodes) && i < j < |nodes|
    requires HasParent(nodes[i]) && nodes[j].parentNode == nodes[i].parentNode
    ensures LayoutNode(nodes, centres, nodes[i]).position.value.y + (FuncHeight + Gap) as real
      <= LayoutNode(nodes, centres, nodes[j]).position.value.y
  {
    StackIndexCountsEarlierSiblings(nodes, i);
    StackIndexCountsEarlierSiblings(nodes, j);
    EarlierSiblingsGrow(nodes, i, j);
    CardOffset(nodes, centres, nodes[i]);
    CardOffset(nodes, centres, nodes[j]);
    CardTopGrows(IndexOfId(Siblings(nodes, nodes[i].parentNode), nodes[i].id),
                 IndexOfId(Siblings(nodes, nodes[j].parentNode), nodes[j].id));
  }

  /** A later card starts at least one card and one gap lower. */
  lemma CardTopGrows(a: int, b: int)
    requires a < b
    ensures CardTop(a) + (FuncHeight + Gap) <= CardTop(b)
  {
    assert CardTop(b) - CardTop(a) == (b - a) * (FuncHeight + Gap);
  }
}

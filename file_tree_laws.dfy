/** What `buildFileTree` guarantees about the forest it returns: sibling
    names are distinct, paths spell out the segments, every file stands for
    one non-`module:` identifier, and every level is sorted, folders first and
    by name, so that sorting again changes nothing. */
module FileTreeLaws {
  import opened Wrappers
  import opened Strings
  import Sorting
  import opened FileTree

  // ---------------------------------------------------------------------
  // Shape predicates
  // ---------------------------------------------------------------------

  /** No two nodes of the level share a name. */
  predicate DistinctNames(level: Forest) {
    forall i, j :: 0 <= i < j < |level| ==> level[i].name != level[j].name
  }

  /** No two siblings share a name, at any depth. */
  predicate DistinctDeep(level: Forest)
    decreases level, 1
  {
    && DistinctNames(level)
    && (forall i :: 0 <= i < |level| ==> NodeDistinct(level[i]))
  }

  predicate NodeDistinct(n: Node)
    decreases n, 2
  {
    n.Folder? ==> DistinctDeep(n.children)
  }

  /** Under ancestors `prefix`, a node's path is the `/`-join of the
      ancestors' names and its own. */
  predicate PathsWellFormed(level: Forest, prefix: seq<string>)
    decreases level, 1
  {
    forall i :: 0 <= i < |level| ==> NodePathOk(level[i], prefix)
  }

  predicate NodePathOk(n: Node, prefix: seq<string>)
    decreases n, 2
  {
    && n.path == Join(prefix + [n.name], "/")
    && (n.Folder? ==> PathsWellFormed(n.children, prefix + [n.name]))
  }

  /** Every file's path is one of `ids`, and not a `module:` identifier. */
  predicate FilesFrom(level: Forest, ids: seq<string>)
    decreases level, 1
  {
    forall i :: 0 <= i < |level| ==> NodeFileFrom(level[i], ids)
  }

  predicate NodeFileFrom(n: Node, ids: seq<string>)
    decreases n, 2
  {
    match n
    case File(_, path) => path in ids && !IsModuleId(path)
    case Folder(_, _, ch) => FilesFrom(ch, ids)
  }

  /** Every level ordered by `Before`: folders first, then by name. */
  predicate SortedDeep(level: Forest)
    decreases level, 1
  {
    && Sorting.SortedBy(level, Before)
    && (forall i :: 0 <= i < |level| ==> NodeSorted(level[i]))
  }

  predicate NodeSorted(n: Node)
    decreases n, 2
  {
    n.Folder? ==> SortedDeep(n.children)
  }

  // ---------------------------------------------------------------------
  // One insertion keeps the shape
  // ---------------------------------------------------------------------

  lemma {:induction false} InsertKeepsDistinct(level: Forest, parts: seq<string>, i: nat, id: string)
    requires i <= |parts| && DistinctDeep(level)
    ensures InsertParts(level, parts, i, id).Ok? ==> DistinctDeep(InsertParts(level, parts, i, id).value)
    decreases |parts| - i
  {
    if i < |parts| {
      var isFile := i == |parts| - 1;
      match FindByName(level, parts[i])
      case Some(k) =>
        if !isFile && level[k].Folder? {
          InsertKeepsDistinct(level[k].children, parts, i + 1, id);
        }
      case None =>
        if !isFile {
          InsertKeepsDistinct([], parts, i + 1, id);
        }
    }
  }

  lemma {:induction false} InsertKeepsPaths(level: Forest, parts: seq<string>, i: nat, id: string)
    requires i <= |parts| && id == Join(parts, "/")
    requires PathsWellFormed(level, parts[..i])
    ensures InsertParts(level, parts, i, id).Ok? ==>
            PathsWellFormed(InsertParts(level, parts, i, id).value, parts[..i])
    decreases |parts| - i
  {
    if i < |parts| {
      var isFile := i == |parts| - 1;
      assert parts[..i] + [parts[i]] == parts[..i + 1];
      match FindByName(level, parts[i])
      case Some(k) =>
        if !isFile && level[k].Folder? {
          assert NodePathOk(level[k], parts[..i]);
          InsertKeepsPaths(level[k].children, parts, i + 1, id);
        }
      case None =>
        if isFile {
          assert parts[..i + 1] == parts;
        } else {
          InsertKeepsPaths([], parts, i + 1, id);
        }
    }
  }

  lemma {:induction false} InsertKeepsFiles(level: Forest, parts: seq<string>, i: nat, id: string, ids: seq<string>)
    requires i <= |parts| && id in ids && !IsModuleId(id)
    requires FilesFrom(level, ids)
    ensures InsertParts(level, parts, i, id).Ok? ==> FilesFrom(InsertParts(level, parts, i, id).value, ids)
    decreases |parts| - i
  {
    if i < |parts| {
      var isFile := i == |parts| - 1;
      match FindByName(level, parts[i])
      case Some(k) =>
        if !isFile && level[k].Folder? {
          assert NodeFileFrom(level[k], ids);
          InsertKeepsFiles(level[k].children, parts, i + 1, id, ids);
        }
      case None =>
        if !isFile {
          InsertKeepsFiles([], parts, i + 1, id, ids);
        }
    }
  }

  lemma FilesFromGrow(level: Forest, ids: seq<string>, more: seq<string>)
    requires FilesFrom(level, ids)
    ensures FilesFrom(level, ids + more)
    decreases level
  {
    forall i | 0 <= i < |level| ensures NodeFileFrom(level[i], ids + more) {
      if level[i].Folder? {
        FilesFromGrow(level[i].children, ids, more);
      }
    }
  }

  /** The unsorted forest already has distinct sibling names, well-formed
      paths, and files only for non-`module:` input identifiers. */
  lemma {:induction false} BuildUnsortedShape(paths: seq<string>)
    ensures BuildUnsorted(paths).Ok? ==>
              var f := BuildUnsorted(paths).value;
              DistinctDeep(f) && PathsWellFormed(f, []) && FilesFrom(f, paths)
    decreases |paths|
  {
    if |paths| > 0 {
      var init := paths[..|paths| - 1];
      var id := paths[|paths| - 1];
      assert paths == init + [id];
      BuildUnsortedShape(init);
      if BuildUnsorted(init).Ok? {
        var f := BuildUnsorted(init).value;
        FilesFromGrow(f, init, [id]);
        if !IsModuleId(id) {
          var parts := Split(id, '/');
          assert parts[..0] == [];
          InsertKeepsDistinct(f, parts, 0, id);
          InsertKeepsPaths(f, parts, 0, id);
          InsertKeepsFiles(f, parts, 0, id, paths);
        }
      }
    }
  }

  // ---------------------------------------------------------------------
  // Sorting keeps the shape and orders every level
  // ---------------------------------------------------------------------

  lemma SortByMembers(s: Forest, x: Node)
    requires x in Sorting.SortBy(s, Before)
    ensures x in s
  {
    assert x in multiset(Sorting.SortBy(s, Before));
  }

  lemma {:induction false} InsertKeepsDistinctNames(x: Node, t: Forest)
    requires DistinctNames(t)
    requires forall i :: 0 <= i < |t| ==> t[i].name != x.name
    ensures DistinctNames(Sorting.Insert(x, t, Before))
    decreases |t|
  {
    if |t| > 0 && !Before(x, t[0]) {
      var rest := Sorting.Insert(x, t[1..], Before);
      InsertKeepsDistinctNames(x, t[1..]);
      forall k | 0 <= k < |rest| ensures rest[k].name != t[0].name {
        assert rest[k] in multiset(rest);
        if rest[k] != x {
          assert rest[k] in multiset(t[1..]);
        }
      }
      ConsDistinct(t[0], rest);
    }
  }

  /** A node whose name none of `rest` has, put in front of `rest`. */
  lemma ConsDistinct(h: Node, rest: Forest)
    requires DistinctNames(rest)
    requires forall k :: 0 <= k < |rest| ==> rest[k].name != h.name
    ensures DistinctNames([h] + rest)
  {
    var r := [h] + rest;
    forall i, j | 0 <= i < j < |r| ensures r[i].name != r[j].name {
      assert r[j] == rest[j - 1];
      if i > 0 {
        assert r[i] == rest[i - 1];
      }
    }
  }

  lemma {:induction false} SortByKeepsDistinctNames(s: Forest)
    requires DistinctNames(s)
    ensures DistinctNames(Sorting.SortBy(s, Before))
    decreases |s|
  {
    if |s| > 0 {
      var rest := Sorting.SortBy(s[1..], Before);
      SortByKeepsDistinctNames(s[1..]);
      forall k | 0 <= k < |rest| ensures rest[k].name != s[0].name {
        assert rest[k] in multiset(rest);
        assert rest[k] in multiset(s[1..]);
        var m :| 0 <= m < |s[1..]| && s[1..][m] == rest[k];
        assert s[m + 1] == rest[k];
      }
      InsertKeepsDistinctNames(s[0], rest);
    }
  }

  lemma {:induction false} SortKeepsShape(level: Forest, prefix: seq<string>, ids: seq<string>)
    ensures DistinctDeep(level) ==> DistinctDeep(SortNodes(level))
    ensures PathsWellFormed(level, prefix) ==> PathsWellFormed(SortNodes(level), prefix)
    ensures FilesFrom(level, ids) ==> FilesFrom(SortNodes(level), ids)
    decreases level
  {
    var c := SortChildren(level);
    var r := SortNodes(level);
    forall i | 0 <= i < |level| && level[i].Folder?
      ensures NodeDistinct(level[i]) ==> NodeDistinct(c[i])
      ensures NodePathOk(level[i], prefix) ==> NodePathOk(c[i], prefix)
      ensures NodeFileFrom(level[i], ids) ==> NodeFileFrom(c[i], ids)
    {
      SortKeepsShape(level[i].children, prefix + [level[i].name], ids);
    }
    forall i | 0 <= i < |r|
      ensures DistinctDeep(level) ==> NodeDistinct(r[i])
      ensures PathsWellFormed(level, prefix) ==> NodePathOk(r[i], prefix)
      ensures FilesFrom(level, ids) ==> NodeFileFrom(r[i], ids)
    {
      SortByMembers(c, r[i]);
      var j :| 0 <= j < |c| && c[j] == r[i];
      assert level[j].File? ==> c[j] == level[j];
    }
    if DistinctDeep(level) {
      SortByKeepsDistinctNames(c);
    }
  }

  /** After sorting, every level is ordered, folders first then by name. */
  lemma {:induction false} SortNodesSorted(level: Forest)
    ensures SortedDeep(SortNodes(level))
    decreases level
  {
    var c := SortChildren(level);
    var r := SortNodes(level);
    BeforeIsTotalPreorder();
    Sorting.SortBySorted(c, Before);
    forall i | 0 <= i < |r| ensures NodeSorted(r[i]) {
      SortByMembers(c, r[i]);
      var j :| 0 <= j < |c| && c[j] == r[i];
      if level[j].Folder? {
        SortNodesSorted(level[j].children);
      }
    }
  }

  /** A forest whose every level is already ordered is left as it is. */
  lemma {:induction false} SortNodesOfSorted(level: Forest)
    requires SortedDeep(level)
    ensures SortNodes(level) == level
    decreases level
  {
    forall i | 0 <= i < |level| ensures SortNode(level[i]) == level[i] {
      if level[i].Folder? {
        assert NodeSorted(level[i]);
        SortNodesOfSorted(level[i].children);
      }
    }
    assert SortChildren(level) == level;
    Sorting.SortByOfSorted(level, Before);
  }

  /** Re-running `sortNodes` on its own result changes nothing. */
  lemma SortNodesIdempotent(level: Forest)
    ensures SortNodes(SortNodes(level)) == SortNodes(level)
  {
    SortNodesSorted(level);
    SortNodesOfSorted(SortNodes(level));
  }

  lemma SortChildrenCons(x: Node, t: Forest)
    ensures SortChildren([x] + t) == [SortNode(x)] + SortChildren(t)
  {
    assert ([x] + t)[1..] == t;
  }

  lemma {:induction false} InsertCommutes(x: Node, t: Forest)
    ensures SortChildren(Sorting.Insert(x, t, Before)) ==
            Sorting.Insert(SortNode(x), SortChildren(t), Before)
    decreases |t|
  {
    if |t| == 0 {
      SortChildrenCons(x, t);
    } else {
      SortChildrenCons(t[0], t[1..]);
      assert [t[0]] + t[1..] == t;
      if Before(x, t[0]) {
        SortChildrenCons(x, t);
      } else {
        InsertCommutes(x, t[1..]);
        SortChildrenCons(t[0], Sorting.Insert(x, t[1..], Before));
      }
    }
  }

  /** The source sorts a level first and its folders' subtrees afterwards;
      sorting subtrees first, as `SortNodes` does, gives the same forest
      because the order looks only at kinds and names. */
  lemma {:induction false} SortLevelFirstSame(level: Forest)
    ensures SortChildren(Sorting.SortBy(level, Before)) == SortNodes(level)
    decreases |level|
  {
    if |level| > 0 {
      SortLevelFirstSame(level[1..]);
      InsertCommutes(level[0], Sorting.SortBy(level[1..], Before));
      assert SortChildren(level)[1..] == SortChildren(level[1..]);
      assert SortChildren(level)[0] == SortNode(level[0]);
    }
  }

  // ---------------------------------------------------------------------
  // The whole builder
  // ---------------------------------------------------------------------

  /** The forest `buildFileTree` returns: sibling names distinct, paths the
      joins of their segments, files only for non-`module:` identifiers of the
      input, every level ordered, and a fixed point of `sortNodes`. */
  lemma BuildFileTreeShape(paths: seq<string>)
    ensures BuildSpec(paths).Ok? ==>
              var f := BuildSpec(paths).value;
              && DistinctDeep(f)
              && PathsWellFormed(f, [])
              && FilesFrom(f, paths)
              && SortedDeep(f)
              && SortNodes(f) == f
  {
    BuildUnsortedShape(paths);
    if BuildUnsorted(paths).Ok? {
      var u := BuildUnsorted(paths).value;
      SortKeepsShape(u, [], paths);
      SortNodesSorted(u);
      SortNodesIdempotent(u);
    }
  }

  /** The identifiers with every `module:` one removed. */
  function WithoutModules(paths: seq<string>): (r: seq<string>)
    ensures forall i :: 0 <= i < |r| ==> !IsModuleId(r[i])
    decreases |paths|
  {
    if |paths| == 0 then []
    else
      var init := WithoutModules(paths[..|paths| - 1]);
      if IsModuleId(paths[|paths| - 1]) then init else init + [paths[|paths| - 1]]
  }

  /** `module:` identifiers contribute nothing: dropping them beforehand
      gives the same result. */
  lemma {:induction false} ModuleIdsIgnored(paths: seq<string>)
    ensures BuildSpec(paths) == BuildSpec(WithoutModules(paths))
    ensures BuildUnsorted(paths) == BuildUnsorted(WithoutModules(paths))
    decreases |paths|
  {
    if |paths| > 0 {
      var init := paths[..|paths| - 1];
      ModuleIdsIgnored(init);
      var w := WithoutModules(paths);
      if !IsModuleId(paths[|paths| - 1]) {
        assert w[..|w| - 1] == WithoutModules(init);
      }
    }
  }

  /** Only `module:` identifiers, or none at all: an empty forest. */
  lemma OnlyModulesGiveEmptyForest(paths: seq<string>)
    requires forall i :: 0 <= i < |paths| ==> IsModuleId(paths[i])
    ensures BuildSpec(paths) == Ok([])
  {
    ModuleIdsIgnored(paths);
    NoneKeptWhenAllModules(paths);
  }

  lemma {:induction false} NoneKeptWhenAllModules(paths: seq<string>)
    requires forall i :: 0 <= i < |paths| ==> IsModuleId(paths[i])
    ensures WithoutModules(paths) == []
    decreases |paths|
  {
    if |paths| > 0 {
      NoneKeptWhenAllModules(paths[..|paths| - 1]);
    }
  }

  // ---------------------------------------------------------------------
  // Worked examples
  // ---------------------------------------------------------------------

  /** Two files sharing a folder end up under one folder node, in name order. */
  lemma GroupingExample()
    ensures BuildSpec(["a/c.py", "a/b.py"]) ==
            Ok([Folder("a", "a", [File("b.py", "a/b.py"), File("c.py", "a/c.py")])])
  {
    var c, b := File("c.py", "a/c.py"), File("b.py", "a/b.py");
    GroupingFirst();
    GroupingSecond();
    assert ["a/c.py", "a/b.py"][..1] == ["a/c.py"];
    assert BuildUnsorted(["a/c.py", "a/b.py"]) == Ok([Folder("a", "a", [c, b])]);
    GroupingSort();
  }

  lemma GroupingFirst()
    ensures BuildUnsorted(["a/c.py"]) == Ok([Folder("a", "a", [File("c.py", "a/c.py")])])
  {
    GroupingFirstInsert();
    assert ["a/c.py"][..0] == [];
    assert !IsModuleId("a/c.py");
  }

  lemma GroupingFirstInsert()
    ensures Ingest([], "a/c.py") == Ok([Folder("a", "a", [File("c.py", "a/c.py")])])
  {
    var c := File("c.py", "a/c.py");
    var f := Folder("a", "a", [c]);
    GroupingSplit("a", "c.py");
    assert "a" + "/" + "c.py" == "a/c.py";
    assert !IsModuleId("a/c.py");
    GroupingLeaf();
    assert ["a", "c.py"][..1] == ["a"];
    assert Join(["a"], "/") == "a";
    assert FindByName([], "a") == None;
    assert [] + [f] == [f];
  }

  lemma GroupingLeaf()
    ensures InsertParts([], ["a", "c.py"], 1, "a/c.py") == Ok([File("c.py", "a/c.py")])
  {
    assert ["a", "c.py"][1] == "c.py";
    assert [] + [File("c.py", "a/c.py")] == [File("c.py", "a/c.py")];
  }

  lemma GroupingSplit(dir: string, file: string)
    requires dir == "a" && (file == "b.py" || file == "c.py")
    ensures Split(dir + "/" + file, '/') == [dir, file]
  {
    assert Join([dir, file], "/") == dir + "/" + file;
    SplitJoin([dir, file], '/');
  }

  lemma GroupingSecond()
    ensures Ingest([Folder("a", "a", [File("c.py", "a/c.py")])], "a/b.py") ==
            Ok([Folder("a", "a", [File("c.py", "a/c.py"), File("b.py", "a/b.py")])])
  {
    var c, b := File("c.py", "a/c.py"), File("b.py", "a/b.py");
    GroupingSplit("a", "b.py");
    assert "a" + "/" + "b.py" == "a/b.py";
    assert !IsModuleId("a/b.py");
    GroupingSecondLeaf();
    assert ["a", "b.py"][0] == "a";
    assert FindByName([Folder("a", "a", [c])], "a") == Some(0);
    var g := Folder("a", "a", [c, b]);
    assert [Folder("a", "a", [c])][0 := g] == [g];
    assert InsertParts([Folder("a", "a", [c])], ["a", "b.py"], 0, "a/b.py") == Ok([g]);
  }

  lemma GroupingSecondLeaf()
    ensures InsertParts([File("c.py", "a/c.py")], ["a", "b.py"], 1, "a/b.py") ==
            Ok([File("c.py", "a/c.py"), File("b.py", "a/b.py")])
  {
    var c, b := File("c.py", "a/c.py"), File("b.py", "a/b.py");
    assert FindByName([c], "b.py") == None;
    assert ["a", "b.py"][1] == "b.py";
    assert [c] + [b] == [c, b];
  }

  lemma GroupingSort()
    ensures var c, b := File("c.py", "a/c.py"), File("b.py", "a/b.py");
            SortNodes([Folder("a", "a", [c, b])]) == [Folder("a", "a", [b, c])]
  {
    var c, b := File("c.py", "a/c.py"), File("b.py", "a/b.py");
    assert !LexLe("c.py", "b.py");
    assert Sorting.SortBy([b], Before) == [b];
    assert Sorting.SortBy([c, b], Before) == [b, c];
    assert SortChildren([c, b]) == [c, b];
    assert SortNodes([c, b]) == [b, c];
    var g := Folder("a", "a", [b, c]);
    assert SortChildren([Folder("a", "a", [c, b])]) == [g];
    assert Sorting.SortBy([g], Before) == [g];
  }

  /** As written, an identifier equal to an existing folder's path is
      dropped rather than listed as a file beside the folder. */
  lemma FolderNameDropsFileExample()
    ensures BuildUnsorted(["a/b", "a"]) == BuildUnsorted(["a/b"])
    ensures BuildUnsorted(["a/b"]) == Ok([Folder("a", "a", [File("b", "a/b")])])
  {
    var f := [Folder("a", "a", [File("b", "a/b")])];
    PrefixSplits();
    assert !IsModuleId("a/b") && !IsModuleId("a");
    assert ["a/b"][..0] == [];
    assert ["a", "b"][..1] == ["a"] && ["a", "b"][1] == "b";
    assert Join(["a"], "/") == "a";
    assert FindByName([], "a") == None && FindByName([], "b") == None;
    assert [] + [File("b", "a/b")] == [File("b", "a/b")];
    assert [] + f == f;
    assert InsertParts([], ["a", "b"], 1, "a/b") == Ok([File("b", "a/b")]);
    assert BuildUnsorted(["a/b"]) == Ok(f);
    assert ["a/b", "a"][..1] == ["a/b"];
    assert FindByName(f, "a") == Some(0);
  }

  /** As written, the same two identifiers in the other order fail: the
      walk for `a/b` meets the file `a` where it needs a folder. The result
      therefore depends on the order of the identifiers. */
  lemma FileThenFolderFailsExample()
    ensures BuildUnsorted(["a", "a/b"]) == Err(CursorLost)
  {
    PrefixSplits();
    assert !IsModuleId("a/b") && !IsModuleId("a");
    assert ["a"][..0] == [];
    assert FindByName([], "a") == None;
    assert [] + [File("a", "a")] == [File("a", "a")];
    assert BuildUnsorted(["a"]) == Ok([File("a", "a")]);
    assert ["a", "a/b"][..1] == ["a"];
    assert ["a", "b"][0] == "a";
    assert FindByName([File("a", "a")], "a") == Some(0);
  }

  lemma PrefixSplits()
    ensures Split("a/b", '/') == ["a", "b"]
    ensures Split("a", '/') == ["a"]
  {
    assert Join(["a", "b"], "/") == "a/b";
    SplitJoin(["a", "b"], '/');
    assert Join(["a"], "/") == "a";
    SplitJoin(["a"], '/');
  }
}

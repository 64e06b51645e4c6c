# Umbra code-map core, modelled in Dafny

Umbra shows a Python project as a map. The backend parses every Python file into a summary: its functions, classes, calls and imports. It then builds a directed graph of files, functions and classes, with `contains` and `calls` edges, and exports that graph to the browser. The frontend builds a folder tree from the graph's node ids, draws each file as a container with its functions stacked inside, lays the containers out, and highlights a node's edges while the pointer is over it.

This project models those four pieces and proves what they promise.

- **Path tree** (`file_tree.dfy`, `file_tree_laws.dfy`): `buildFileTree` and its recursive `sortNodes`.
  - The imperative walk is a method, `FileTree.InsertPath`. Its "current level" cursor is a path of child indices.
  - The method is proved equal to a recursive specification, `FileTree.InsertParts`.
  - Laws about the tree: no two siblings share a name; paths are well formed; every file comes from the input; every level is sorted; sorting again changes nothing; `module:` ids are ignored.
- **Page state** (`page_state.dfy`): the tree row's click handler, the page's `handleOpenFile`, and the memoised tree.
- **Graph canvas** (`graph_view.dfy`, `graph_layout.dfy`, `graph_layout_laws.dfy`, `graph_canvas.dfy`):
  - the node classifier and the strings a card shows;
  - `getLayoutedElements`: container sizes, macro edges between files, dagre's centres turned into corners, and cards stacked inside their container;
  - the initial edge styling and the hover reducers.
- **Parser** (`code_parser.dfy`, `code_parser_laws.dfy`): the `CodeParser` visitor as a class over a small abstract syntax tree.
  - Each visit method is proved against a record function.
  - The return summary is proved independent of order and repeats.
  - The failure fallbacks of `analyze_file_structure` are modelled.
- **Code graph** (`code_graph.dfy`): `CodeGraph.build_graph` and `get_frontend_data` over a model of a networkx `DiGraph`.
  - Nodes and edges keep insertion order.
  - Attributes merge on re-adding a node.
  - `add_edge` creates missing endpoints and overwrites the edge type.
- **Support** (`wrappers.dfy`, `strings.dfy`, `sorting.dfy`): Option/Result, string helpers, and a stable insertion sort with its laws.

Behaviours of the code that the model reproduces as written:
- **A repeated last segment is dropped.** A final path segment whose name is already taken at its level adds nothing (page.tsx:57-58). It does not become a second entry. `FolderNameDropsFileExample` shows `["a/b", "a"]` building the same tree as `["a/b"]`.
- **The tree depends on input order.** A path that has to pass through an existing *file* moves the cursor onto a missing children list. The next segment then throws. The model returns `Err(CursorLost)`. `FileThenFolderFailsExample` shows that `["a", "a/b"]` fails, while `["a/b", "a"]` builds a tree.
- **Backend class ids never carry `::class`.** The backend names a class `path::Name` (graph.py:42), so the frontend's `::class` test (graph-view.tsx:273) only matches members whose name starts with `class` (`GraphView.BackendIdKind`).
- **Cards always show "void" for returns.** `build_graph` never stores the parser's return summary, so every exported node has `returns == ""` (`CodeGraph.BuiltNodesShowVoid`).
- **Global self-calls retype the `contains` edge.** A module-level call to one of the file's own functions turns that function's `contains` edge into a `calls` edge (`CodeGraph.GlobalCallRetypesContains`).
- **Calls resolve only against earlier nodes.** Call targets are matched only against nodes present when the file is processed: earlier files and this file's own functions and classes (`CodeGraph.FileStepCalls`).

## Model

| member | source | states |
|---|---|---|
| Strings.Split | frontend/src/app/page.tsx:52 | `path.split("/")` gives at least one segment, no segment holds the separator, and joining the segments restores the path |
| Strings.SplitJoin | frontend/src/app/page.tsx:52-62 | splitting a join of separator-free segments gives back the segments, so a folder's joined path splits into its own segments |
| Strings.JoinContainsEach | backend/core/parser.py:63 | every part occurs in the joined text |
| Strings.LexLeTotal | frontend/src/app/page.tsx:74 | the name order compares any two names |
| Strings.LexLeTransitive | frontend/src/app/page.tsx:74 | the name order is transitive |
| Strings.LexLeAntisymmetric | backend/core/parser.py:63 | two names each ordered before the other are equal |
| Strings.NatToString | backend/core/parser.py:145 | `str(lineno)` is a non-empty string of digits whose decimal value is the line number, with no leading zero unless the number is 0 |
| Strings.NatToStringUnique | backend/core/parser.py:145 | every digit string without a leading zero is `str` of the number it denotes, so the rendering is the only one |
| Sorting.Insert | frontend/src/app/page.tsx:73-76 | one insertion step adds exactly the element (multiset) |
| Sorting.SortBy | frontend/src/app/page.tsx:73-76 | the in-place sort is a permutation of its input |
| Sorting.InsertSorted | frontend/src/app/page.tsx:73-76 | inserting into a sorted list keeps it sorted under a total preorder |
| Sorting.SortBySorted | frontend/src/app/page.tsx:73-76 | the sort's output is ordered by the comparator |
| Sorting.SortByOfSorted | frontend/src/app/page.tsx:73-76 | an already ordered list is left exactly as it is |
| Sorting.SortByIdempotent | frontend/src/app/page.tsx:72-81 | sorting twice is sorting once |
| Sorting.SortedArrangementUnique | backend/core/parser.py:63 | two sorted duplicate-free lists of the same elements are equal |
| Sorting.Dedup | backend/core/parser.py:63 | `set(...)`: no duplicates and exactly the input's elements |
| Sorting.SortedDedup | backend/core/parser.py:63 | `sorted(set(xs))` is ordered, duplicate-free, and holds exactly the elements of `xs` |
| Sorting.SortedSetDependsOnElementsOnly | backend/core/parser.py:63 | `sorted(set(xs))` depends only on which elements `xs` holds |
| FileTree.FindByName | frontend/src/app/page.tsx:56 | `find` yields the first sibling with that name, or none when no sibling has it |
| FileTree.BeforeIsTotalPreorder | frontend/src/app/page.tsx:73-76 | the comparator (folders first, then by name) is total and transitive |
| FileTree.SortChildren | frontend/src/app/page.tsx:77-79 | each node of a level is sorted recursively, in place, keeping the level's length |
| FileTree.SortNode | frontend/src/app/page.tsx:77-79 | sorting inside a node keeps its name, path and kind |
| FileTree.UpdateAtSame | frontend/src/app/page.tsx:53 | writing back the level under the cursor changes nothing |
| FileTree.UpdateAtThenLevelAt | frontend/src/app/page.tsx:53-67 | after a push through the cursor, the cursor still points at the pushed-to level, and a later write replaces the earlier one |
| FileTree.Descend | frontend/src/app/page.tsx:58 | moving the cursor into a folder's children is extending the index path |
| FileTree.StepDescend | frontend/src/app/page.tsx:56-58 | a non-terminal segment naming an existing folder moves the cursor into it without changing what remains to be built |
| FileTree.StepPushFile | frontend/src/app/page.tsx:60-66 | a new terminal segment appends a file carrying the whole id at the cursor's level |
| FileTree.StepPushFolder | frontend/src/app/page.tsx:60-67 | a new non-terminal segment appends a folder whose path joins the segments so far, and the cursor moves into it |
| FileTree.InsertPath | frontend/src/app/page.tsx:52-69 | the segment loop with its moving cursor builds exactly the recursive insertion, including the error when the cursor lands on a file |
| FileTree.InsertPart | frontend/src/app/page.tsx:54-68 | one segment either loses the cursor, exactly when a folder segment names an existing file, or leaves the outcome of the remaining segments unchanged while it descends, appends a folder, appends a file or skips an existing file |
| FileTree.BuildFileTree | frontend/src/app/page.tsx:48-83 | the builder inserts every id in order and then sorts; an empty list gives an empty forest |
| FileTree.BuildStopsAtError | frontend/src/app/page.tsx:50-58 | once an id fails, the whole build fails with that error |
| FileTreeLaws.InsertKeepsDistinct | frontend/src/app/page.tsx:56-67 | insertion reuses the first same-named sibling, so no two siblings at any depth share a name |
| FileTreeLaws.InsertKeepsPaths | frontend/src/app/page.tsx:62 | a folder's path is the join of its segments; a file's path is the whole id |
| FileTreeLaws.InsertKeepsFiles | frontend/src/app/page.tsx:60-66 | every file in the tree carries a non-`module:` id of the input |
| FileTreeLaws.FilesFromGrow | frontend/src/app/page.tsx:50 | files taken from a prefix of the input are taken from the input |
| FileTreeLaws.BuildUnsortedShape | frontend/src/app/page.tsx:49-70 | the unsorted forest has distinct sibling names, well-formed paths, and files only from the input |
| FileTreeLaws.SortByMembers | frontend/src/app/page.tsx:73-76 | sorting a level adds no node |
| FileTreeLaws.InsertKeepsDistinctNames | frontend/src/app/page.tsx:73-76 | an insertion step keeps sibling names distinct |
| FileTreeLaws.SortByKeepsDistinctNames | frontend/src/app/page.tsx:73-76 | sorting a level keeps sibling names distinct |
| FileTreeLaws.SortKeepsShape | frontend/src/app/page.tsx:72-80 | recursive sorting keeps distinct names, well-formed paths and the files' origin |
| FileTreeLaws.SortNodesSorted | frontend/src/app/page.tsx:72-81 | after sorting, every level at every depth has folders before files and names in order |
| FileTreeLaws.SortNodesOfSorted | frontend/src/app/page.tsx:72-81 | sorting a forest sorted at every level changes nothing |
| FileTreeLaws.SortNodesIdempotent | frontend/src/app/page.tsx:72-81 | re-running `sortNodes` on its result changes nothing |
| FileTreeLaws.SortChildrenCons | frontend/src/app/page.tsx:77-79 | the recursive pass maps over a level element by element |
| FileTreeLaws.InsertCommutes | frontend/src/app/page.tsx:72-80 | sorting inside nodes does not change where an insertion step puts them, since names and kinds are kept |
| FileTreeLaws.SortLevelFirstSame | frontend/src/app/page.tsx:72-80 | sorting a level and then its children (the source's order) equals the model's children-first definition |
| FileTreeLaws.BuildFileTreeShape | frontend/src/app/page.tsx:48-83 | a built tree has distinct sibling names, well-formed paths and files from the input, is sorted at every level, and is unchanged by sorting again |
| FileTreeLaws.WithoutModules | frontend/src/app/page.tsx:51 | the ids kept are none of them `module:` ids |
| FileTreeLaws.ModuleIdsIgnored | frontend/src/app/page.tsx:51 | `module:` ids add nothing: the tree is the one built without them |
| FileTreeLaws.NoneKeptWhenAllModules | frontend/src/app/page.tsx:51 | a list of `module:` ids keeps nothing |
| FileTreeLaws.OnlyModulesGiveEmptyForest | frontend/src/app/page.tsx:49-51 | a list made only of `module:` ids gives an empty forest |
| FileTreeLaws.GroupingExample | frontend/src/app/page.tsx:48-83 | `a/c.py`, `a/b.py` group under one folder `a`, with the files sorted by name |
| FileTreeLaws.FolderNameDropsFileExample | frontend/src/app/page.tsx:57-58 | a terminal segment equal to an existing folder's name is dropped |
| FileTreeLaws.FileThenFolderFailsExample | frontend/src/app/page.tsx:56-58 | `a` followed by `a/b` sends the cursor into a file and fails |
| PageState.FileTreeItem.constructor | frontend/src/app/page.tsx:98 | a row starts closed |
| PageState.FileTreeItem.HandleClick | frontend/src/app/page.tsx:101-105 | a folder only toggles its open flag and selects nothing; a file selects its own path and keeps the flag |
| PageState.Home.constructor | frontend/src/app/page.tsx:215-232 | the page starts offline, on the graph tab, with nothing selected, loaded or loading |
| PageState.Home.HandleOpenFile | frontend/src/app/page.tsx:284-297 | offline changes nothing and sends nothing; online selects the file and shows the code tab; a `module:` id shows the placeholder without a request; any other id clears the content, starts loading and requests that path |
| PageState.Home.FinishOpenFile | frontend/src/app/page.tsx:298-307 | the reply ends loading and shows the content, the server's error message, or the connection error; nothing else changes |
| PageState.PlaceholderNamesModule | frontend/src/app/page.tsx:289-292 | the placeholder text contains the id with its `module:` prefix removed |
| PageState.FileTreeOf | frontend/src/app/page.tsx:235-241 | no graph data gives an empty forest; otherwise the tree of the node ids |
| GraphView.Classify | frontend/src/components/graph-view.tsx:270-277 | `file` iff no parent; `class` iff a parent and an id containing `::class`; `function` otherwise |
| GraphView.ArgsDisplay | frontend/src/components/graph-view.tsx:65-66 | no args, or an empty list, shows `void` |
| GraphView.ArgsDisplayShowsEach | frontend/src/components/graph-view.tsx:65-66 | every argument appears in the displayed text |
| GraphView.ReturnsDisplay | frontend/src/components/graph-view.tsx:69-72 | shows `void` exactly when returns is missing, empty, `None` or `void`, and the returns text itself otherwise |
| GraphView.StyleEdges | frontend/src/components/graph-view.tsx:284-297 | every edge, in order, becomes an animated default edge in the dimmed style |
| GraphView.OnEnter | frontend/src/components/graph-view.tsx:304-327 | edges touching the node are highlighted with zIndex 999; all others are left exactly as they were |
| GraphView.OnLeave | frontend/src/components/graph-view.tsx:329-338 | every edge is reset to the dimmed style with zIndex 0 |
| GraphView.LeaveIdempotent | frontend/src/components/graph-view.tsx:329-338 | leaving twice is leaving once |
| GraphView.LeaveUndoesEnter | frontend/src/components/graph-view.tsx:304-338 | entering then leaving equals leaving |
| GraphView.EnterIdempotent | frontend/src/components/graph-view.tsx:304-327 | entering the same node twice is entering once |
| GraphView.EnterHighlightsExactly | frontend/src/components/graph-view.tsx:304-327 | from a state with no highlighted edges, an edge is highlighted iff it touches the node |
| GraphView.DimmedStates | frontend/src/components/graph-view.tsx:284-338 | after the initial styling, and after leaving, no edge is highlighted |
| GraphView.BackendIdKind | frontend/src/components/graph-view.tsx:273 | for a colon-free path and name, the backend's id `path::name` contains `::class` iff the name starts with `class` |
| GraphLayout.Siblings | frontend/src/components/graph-view.tsx:174 | the filter keeps exactly the nodes with that parent |
| GraphLayout.IndexOfId | frontend/src/components/graph-view.tsx:227 | `findIndex` gives the first position with that id, or -1 when there is none |
| GraphLayout.FindNode | frontend/src/components/graph-view.tsx:192-193 | `find` gives a node with that id, or none when no node has it |
| GraphLayout.FileBox | frontend/src/components/graph-view.tsx:176-181 | a container is 328 wide and `max(50 + 115k + 24, 140)` high, with k its children |
| GraphLayout.MacroEdge | frontend/src/components/graph-view.tsx:191-203 | an edge contributes a parent pair iff both ends exist, both have parents, and the parents differ |
| GraphLayout.LayoutNode | frontend/src/components/graph-view.tsx:208-239 | a node keeps its id, parent, kind and data |
| GraphLayout.SizeContainers | frontend/src/components/graph-view.tsx:171-188 | the sizing loop gives dagre one box per file id and sets each file node's style to its box |
| GraphLayout.ContainerSize | frontend/src/components/graph-view.tsx:174-181 | the size computed for a file node is its box: 328 wide, and the children's stack height or 140, whichever is larger |
| GraphLayout.CollectMacroEdges | frontend/src/components/graph-view.tsx:191-203 | the edge loop gives dagre exactly the macro edges |
| GraphLayout.PlaceNode | frontend/src/components/graph-view.tsx:208-239 | the final pass, applied to a node whose style was set in place, gives its laid-out form |
| GraphLayout.PlaceNodes | frontend/src/components/graph-view.tsx:208-239 | the final map keeps the count and order of the nodes |
| GraphLayout.GetLayoutedElements | frontend/src/components/graph-view.tsx:159-242 | every node, in order, is laid out from dagre's centres for the boxes and macro edges; the edges are returned unchanged |
| GraphLayoutLaws.FileIdsExactly | frontend/src/components/graph-view.tsx:171-186 | dagre is asked to place exactly the ids of the nodes without a parent |
| GraphLayoutLaws.BoxesExactly | frontend/src/components/graph-view.tsx:173-187 | exactly the file nodes have boxes, each 328 wide and tall enough for its children |
| GraphLayoutLaws.MacroEdgesExactly | frontend/src/components/graph-view.tsx:191-203 | a pair is a macro edge iff some edge contributes it |
| GraphLayoutLaws.MacroEdgesBetweenFiles | frontend/src/components/graph-view.tsx:196-201 | a macro edge joins two different, non-empty parents of an edge's two ends |
| GraphLayoutLaws.ContainerPlacement | frontend/src/components/graph-view.tsx:210-222 | a placed container's corner is dagre's centre minus half its box, with zIndex 0; an unplaced one only gains its style |
| GraphLayoutLaws.StackIndexInRange | frontend/src/components/graph-view.tsx:226-227 | a card's index among its siblings is found and lies below their count |
| GraphLayoutLaws.CardInsideContainer | frontend/src/components/graph-view.tsx:226-237 | every card is 280×90 at x 24, below the header and above the bottom padding of its container, with zIndex 10 and extent `parent` |
| GraphLayoutLaws.StackIndexCountsEarlierSiblings | frontend/src/components/graph-view.tsx:226-227 | with distinct ids, a card's index counts the siblings before it in the input |
| GraphLayoutLaws.CardOffset | frontend/src/components/graph-view.tsx:229-234 | the card at index i sits at x 24 and y `CardTop(i)`, that is `50 + 115 i` |
| GraphLayoutLaws.EarlierSiblingsGrow | frontend/src/components/graph-view.tsx:226 | a later position has more same-parent nodes before it |
| GraphLayoutLaws.CardsStackInOrder | frontend/src/components/graph-view.tsx:226-235 | cards of one container stack in input order, at least 115 apart, so no two overlap |
| GraphCanvas.Classified | frontend/src/components/graph-view.tsx:270-277 | each incoming node, in order, gets its classified kind |
| GraphCanvas.Canvas.constructor | frontend/src/components/graph-view.tsx:249-250 | the canvas starts with no nodes and no edges |
| GraphCanvas.Canvas.Load | frontend/src/components/graph-view.tsx:268-301 | no incoming nodes changes nothing; otherwise the canvas holds the classified nodes laid out, in order, and the styled edges |
| GraphCanvas.Canvas.MouseEnter | frontend/src/components/graph-view.tsx:304-327 | the edges become the enter reducer's result and the nodes stay |
| GraphCanvas.Canvas.MouseLeave | frontend/src/components/graph-view.tsx:329-338 | the edges become the leave reducer's result and the nodes stay |
| GraphCanvas.HoverScenario | frontend/src/components/graph-view.tsx:268-338 | after loading, hovering a node highlights exactly its edges, and leaving highlights none |
| Parser.GetAnnotation | backend/core/parser.py:8-24 | `Any` for no annotation, the name for a Name, `str(value)` for a Constant; otherwise the unparsed text, or `Complex` (subscript) or `Any` when unparsing fails |
| Parser.RenderArgs | backend/core/parser.py:77-84 | every parameter, in order, is rendered `name (type)`, with `Any` when unannotated |
| Parser.ArgTexts | backend/core/parser.py:77-84 | the rendered argument list has one entry per parameter, in order |
| Parser.EntriesOf | backend/core/parser.py:33-58 | one `name (type)` entry per returned value, in order |
| Parser.AnalyzeReturn | backend/core/parser.py:26-63 | the loop yields the summary of the return entries, which is `void` iff no `return` has a value |
| Parser.SummaryNotVoid | backend/core/parser.py:58-63 | with any entry, the summary is not `void` and holds an entry's parenthesis |
| Parser.CodeParser.constructor | backend/core/parser.py:4-6 | a parser starts with four empty lists and no scope |
| Parser.CodeParser.Visit | backend/core/parser.py:65-126 | visiting a statement appends exactly its records and leaves the scope as it was |
| Parser.CodeParser.VisitAll | backend/core/parser.py:65-126 | visiting statements in order appends their records in order |
| Parser.CodeParser.VisitFunctionDef | backend/core/parser.py:75-100 | the function is recorded with its arguments, return summary, enclosing scope and line; its parts are visited inside its own scope, which is then restored |
| Parser.CodeParser.VisitClassDef | backend/core/parser.py:102-108 | the class is recorded with its line; its parts are visited inside its own scope, which is then restored |
| Parser.DescribeFunction | backend/core/parser.py:77-94 | the function's record holds its name, its rendered arguments, its return summary, the enclosing scope and its line |
| Parser.CodeParser.GenericVisitFunctionDef | backend/core/parser.py:99 | the parameters' annotations, the defaults, the body, the decorators and the return annotation are visited in that order, appending their records, and the scope is restored |
| Parser.CodeParser.GenericVisitClassDef | backend/core/parser.py:107 | the bases, the body and the decorators are visited in that order, appending their records, and the scope is restored |
| Parser.CodeParser.VisitImport | backend/core/parser.py:65-68 | every imported name is appended, in order, and nothing else changes |
| Parser.CodeParser.VisitImportFrom | backend/core/parser.py:70-73 | the module is appended only when it is named |
| Parser.CodeParser.VisitCall | backend/core/parser.py:110-126 | a call of a name, or of an attribute of a name (`recv.attr`), is recorded from the scope or `global`; then its callee and arguments are visited |
| Parser.CodeParser.VisitExpr | backend/core/parser.py:110-126 | visiting an expression appends exactly the calls inside it |
| Parser.CodeParser.VisitExprs | backend/core/parser.py:110-126 | visiting expressions in order appends their calls in order |
| Parser.CodeParser.VisitOptExpr | backend/core/parser.py:110-126 | a missing expression records nothing |
| Parser.CodeParser.VisitArgs | backend/core/parser.py:75-84 | the parameters' annotations are visited in order |
| Parser.AnalyzeFileStructure | backend/core/parser.py:129-156 | a parsed module gives the visitor's records; a syntax error gives one `⚠️ SYNTAX ERROR` function with the error line and nothing else; any other failure gives four empty lists |
| ParserLaws.ExprCallsFromScope | backend/core/parser.py:110-123 | an expression records only calls, all from the current scope's label |
| ParserLaws.ExprsCallsFromScope | backend/core/parser.py:110-123 | expressions record only calls, all from the current scope's label |
| ParserLaws.OptExprCallsFromScope | backend/core/parser.py:110-123 | an optional expression records only calls from the current scope's label |
| ParserLaws.ArgsCallsFromScope | backend/core/parser.py:75-84 | annotations record only calls from the function's own label |
| ParserLaws.OnlyCallsScoped | backend/core/parser.py:114 | calls from the scope's label are well scoped |
| ParserLaws.Widen | backend/core/parser.py:97-108 | records made inside a defined function or class stay well scoped in the enclosing scope |
| ParserLaws.StmtScoped | backend/core/parser.py:75-126 | every recorded call comes from the scope, from `global`, or from a recorded function or class; every function's scope is the enclosing one or a recorded definition |
| ParserLaws.StmtsScoped | backend/core/parser.py:75-126 | the same for a statement list |
| ParserLaws.FileRecordsWellScoped | backend/core/parser.py:129-156 | every call a file records comes from `global` or from a function or class the file records, so the graph finds its source node |
| ParserLaws.LexLeOrders | backend/core/parser.py:63 | the string order used by `sorted` is a total order |
| ParserLaws.SummaryIgnoresOrderAndRepeats | backend/core/parser.py:60-63 | the summary depends only on which entries occur, not on traversal order or repeats |
| ParserLaws.SummaryShowsEach | backend/core/parser.py:58-63 | every return entry appears in the summary |
| ParserLaws.SummarySortedOnce | backend/core/parser.py:60-63 | the summary joins the entries sorted, each exactly once, and only those |
| CodeGraph.FunctionMembers | backend/core/graph.py:29-37 | each function, in order, becomes node `rel::name` with its name as label, type `function`, the file as parent and its args |
| CodeGraph.ClassMembers | backend/core/graph.py:41-45 | each class, in order, becomes node `rel::name` with its name as label, type `class` and the file as parent |
| CodeGraph.MemberIdsNamed | backend/core/graph.py:30-42 | member ids differ from the file's id, and two are equal only when the names are |
| CodeGraph.MemberIdInjective | backend/core/graph.py:30 | different names in one file give different ids |
| CodeGraph.Matches | backend/core/graph.py:57-58 | the targets are exactly the graph's nodes whose id ends with the suffix |
| CodeGraph.BuildSpec | backend/core/graph.py:10-13 | with the root missing, the cleared graph stays empty |
| CodeGraph.ExportNode | backend/core/graph.py:65-77 | the exported node keeps its id and parent; extent is `parent` exactly when a non-empty parent exists; a present label, type, args or returns is exported as stored; an absent one defaults to the id, `default`, `[]` and `""` |
| CodeGraph.SuccessorsOf | backend/core/graph.py:79 | a node's out-edges are exactly the edges leaving it |
| CodeGraph.EdgeView | backend/core/graph.py:79 | the edge view lists exactly the edges leaving listed nodes |
| CodeGraph.ExportEdges | backend/core/graph.py:79-92 | at most one exported edge per viewed edge |
| CodeGraph.CodeGraph.constructor | backend/core/graph.py:5-7 | a new graph is empty |
| CodeGraph.CodeGraph.BuildGraph | backend/core/graph.py:9-59 | the graph is cleared and then holds every file's contribution in order; it is well formed and carries no `returns`; a missing root leaves it empty |
| CodeGraph.CodeGraph.AddFile | backend/core/graph.py:25-59 | one file's step: its node, its functions and classes with `contains` edges, then its calls |
| CodeGraph.CodeGraph.AddFunctionNodes | backend/core/graph.py:29-39 | the function loop adds each function's node and `contains` edge, in order |
| CodeGraph.CodeGraph.AddClassNodes | backend/core/graph.py:41-46 | the class loop adds each class's node and `contains` edge, in order |
| CodeGraph.CodeGraph.AddCallEdges | backend/core/graph.py:48-59 | the call loop resolves every call in order |
| CodeGraph.CodeGraph.ResolveCall | backend/core/graph.py:57-59 | one call adds a `calls` edge from its source to every matching node |
| CodeGraph.CodeGraph.GetFrontendData | backend/core/graph.py:61-94 | one exported node per graph node, in order, and the exported edges of the edge view |
| CodeGraph.ExportAllNodes | backend/core/graph.py:65-77 | one exported node per graph node, in node order, from that node's attributes |
| CodeGraph.ExportViewEdges | backend/core/graph.py:79-92 | the edge loop exports, in view order, every edge whose type is not `contains` |
| CodeGraph.EdgesToEffect | backend/core/graph.py:57-59 | resolving one call keeps the nodes and types each edge to a match `calls` |
| CodeGraph.CallsPhase | backend/core/graph.py:48-59 | the call loop keeps the nodes and types as `calls` exactly the pairs from a call's source to a node ending in `::callee` |
| CodeGraph.CallsKeepNodes | backend/core/graph.py:48-59 | the call loop adds no node and changes no attribute |
| CodeGraph.MembersPhase | backend/core/graph.py:29-46 | the member loop gives each member its name, kind and parent, leaves other nodes alone, and adds exactly the `contains` pairs |
| CodeGraph.MembersNodes | backend/core/graph.py:29-46 | each member node shows its name, kind and file as parent, every node stays, and nodes that are not members keep their attributes |
| CodeGraph.MembersEdges | backend/core/graph.py:29-46 | the member loop adds a `contains` type for exactly the file-to-member pairs and keeps every other type |
| CodeGraph.DefinedPhases | backend/core/graph.py:25-46 | the file node is added with its type and label, and the member lists carry the right attributes |
| CodeGraph.DefinedFileNode | backend/core/graph.py:25 | the file node has type `file` and the file name as label; no node is lost |
| CodeGraph.DefinedContainsMember | backend/core/graph.py:29-46 | after the member loops, the file's edge to each of its functions and classes has type `contains` |
| CodeGraph.SourcePresent | backend/core/graph.py:52-55 | the source of a call from the top level or from a function or class the file defines is a node |
| CodeGraph.DefinedFunctions | backend/core/graph.py:29-39 | every function node has the file as parent and its name as label, and type `function` unless a class of the same name re-types it |
| CodeGraph.DefinedClasses | backend/core/graph.py:41-46 | every class node has its name, type `class` and the file as parent |
| CodeGraph.DefinedEdges | backend/core/graph.py:39-46 | the file gains exactly its `contains` edges |
| CodeGraph.DefinedHasSources | backend/core/graph.py:48-55 | every call's source node exists before its edges are added |
| CodeGraph.AddEdgeEffect | backend/core/graph.py:59 | adding an edge between existing nodes only sets its type |
| CodeGraph.AddNodeSound | backend/core/graph.py:25-44 | adding a node keeps the graph well formed and free of `returns` |
| CodeGraph.EnsureNodeSound | backend/core/graph.py:59 | creating an endpoint keeps the graph well formed and loses no node |
| CodeGraph.AddEdgeSound | backend/core/graph.py:59 | adding an edge keeps the graph well formed |
| CodeGraph.AddMembersSound | backend/core/graph.py:29-46 | the member loops keep the graph well formed |
| CodeGraph.AddEdgesToSound | backend/core/graph.py:57-59 | resolving a call keeps the graph well formed |
| CodeGraph.AddCallsSound | backend/core/graph.py:48-59 | the call loop keeps the graph well formed |
| CodeGraph.DefinedSound | backend/core/graph.py:25-46 | a file's nodes keep the graph well formed |
| CodeGraph.FileStepSound | backend/core/graph.py:25-59 | a file's step keeps the graph well formed |
| CodeGraph.AddFilesSound | backend/core/graph.py:17-59 | the file loop keeps the graph well formed |
| CodeGraph.BuildSpecSound | backend/core/graph.py:9-59 | every built graph is well formed and carries no `returns` |
| CodeGraph.FileStepCalls | backend/core/graph.py:48-59 | a file's calls add no node and resolve only against the nodes present then |
| CodeGraph.FileStepLinksMembers | backend/core/graph.py:39-59 | the file keeps an edge to each of its members, typed `calls` if a call resolved to that pair and `contains` otherwise |
| CodeGraph.MemberIdEndsWithName | backend/core/graph.py:30-58 | a member id ends with `::name`, so a call to that name matches it |
| CodeGraph.GlobalCallRetypesContains | backend/core/graph.py:52-59 | a module-level call to the file's own function turns the file's `contains` edge to it into a `calls` edge |
| CodeGraph.ExportedFrom | backend/core/graph.py:79-92 | each exported edge comes from a viewed edge that is not `contains` |
| CodeGraph.ExportedCovers | backend/core/graph.py:79-92 | each viewed edge that is not `contains` is exported |
| CodeGraph.ExportedEdgesExactly | backend/core/graph.py:79-92 | an edge is exported iff it is in the graph and not `contains` |
| CodeGraph.EdgeExported | backend/core/graph.py:79-92 | a graph edge whose source is a node and whose type is not `contains` is exported at some position |
| CodeGraph.ExportedEdge | backend/core/graph.py:79-92 | every exported edge is a graph edge whose type is not `contains`, exported from that edge |
| CodeGraph.TypedEdgeExported | backend/core/graph.py:79-92 | in a well-formed graph, every typed edge that is not `contains` is exported with its source and target |
| CodeGraph.ExportedEdgeShape | backend/core/graph.py:83-91 | each exported edge has id `u-v`, is animated and `smoothstep`, and is labelled `calls` exactly when its type is `calls`, `""` otherwise |
| CodeGraph.BuiltNodesShowVoid | backend/core/graph.py:72 | every built node exports `returns == ""`, which the card shows as `void` |

## Left out

- File discovery is a parameter. The model leaves out `os.walk`, the ignored directories, the `.py` filter, `os.path.relpath` and file reading (graph.py:15-27, parser.py:130-133). `build_graph` receives the discovered files, in walk order, as `SourceFile` values, each holding its parse outcome.
- `ast.parse` is replaced by `ParseOutcome`, and `ast.unparse` is a function parameter whose `None` stands for an exception.
- The syntax tree is abstract, with these gaps:
  - Statements the visitor does not special-case become `Block`, which visits its expressions and then its nested statements. This covers `async def`, which `visit_FunctionDef` does not see.
  - Keyword arguments, `*args`, `**kwargs`, keyword-only and positional-only parameters are left out.
  - `visit_Call`'s `try`/`except` is left out, because nothing in it can fail in the model.
- `ast.walk`'s breadth-first order is replaced by a depth-first collection of return values. `ParserLaws.SummaryIgnoresOrderAndRepeats` proves the summary does not depend on order.
- `localeCompare` is modelled as code-point order. `Array.prototype.sort` is modelled as a stable insertion sort. Sibling names are distinct, so the order of equal elements never matters.
- Dagre's placement is a function parameter from boxes and macro edges to centres. Its graph options (`rankdir`, `nodesep`, `ranksep`) are not modelled, and nothing is proved about how containers are placed relative to each other.
- The in-place updates are modelled on values, so aliasing is not captured:
  - `buildFileTree` pushes into shared arrays. The forest is a value, and the cursor is a path of child indices.
  - `fileNode.style` is set on the input objects. `GraphLayout.Staged` gives each node as the final pass sees it.
- The React layer is left out: hooks, rendering, the ReactFlow components and the Bezier edge path. Stroke colour, width, opacity and arrow colour are reduced to two edge styles, `Dimmed` and `Highlighted`.
- `handleOpenFile`'s HTTP request is split in two. `HandleOpenFile` returns the path to request, and `FinishOpenFile` takes the reply, or the lack of one. Health checks, graph polling, chat, and the `level`/`selectedFile` rendering of tree rows are left out.
- The parser's `print` of a syntax error is left out, because it is output only.
- GraphView.ArgsDisplay: states only the `void` case. `GraphView.ArgsDisplayShowsEach` states that each argument appears in the text, but the exact `", "` join is not stated as a property.
- CodeGraph.ExportEdges: states only a bound on its length. `ExportedEdgesExactly` and `ExportedEdgeShape` state which edges are exported and their shape. That exported edges are distinct is not proved.
- CodeGraph.CodeGraph.AddCallEdges: requires every call's source node to exist. In Python, a missing source would be created inside the iteration over the graph's nodes and raise an error. `CodeGraph.DefinedHasSources` and `ParserLaws.FileRecordsWellScoped` prove the parser never produces such a call.
- CodeGraph.CodeGraph.AddFile: requires a well-formed graph, which `BuildGraph` always provides.

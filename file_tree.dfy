/** The explorer's path tree (`buildFileTree` in frontend/src/app/page.tsx).
    A flat list of slash-separated identifiers becomes a forest of folders and
    files: each identifier is walked segment by segment with a "current level"
    cursor, reusing a sibling of the same name or appending a new node, and
    every level is then sorted, folders first and by name.

    The source pushes into nested JavaScript arrays and moves a reference to
    the current array. Here the forest is a value, the cursor is the path of
    child indices from the root to the current level, and a push rebuilds the
    forest along that path. */
module FileTree {
  import opened Wrappers
  import opened Strings
  import Sorting

  /** A tree entry. A file carries no children list at all; a folder always
      carries one, possibly empty. */
  datatype Node =
    | Folder(name: string, path: string, children: seq<Node>)
    | File(name: string, path: string)

  /** The walk moved the cursor onto a file's missing children list; the next
      segment then fails (a TypeError in the source). */
  datatype TreeError = CursorLost

  type Forest = seq<Node>

  const ModulePrefix: string := "module:"

  predicate IsModuleId(id: string) {
    StartsWith(id, ModulePrefix)
  }

  /** `level.find(node => node.name === name)`: the first sibling so named. */
  function FindByName(level: Forest, name: string): (k: Option<nat>)
    ensures k.Some? ==> k.value < |level| && level[k.value].name == name
    ensures k.Some? ==> forall j :: 0 <= j < k.value ==> level[j].name != name
    ensures k.None? ==> forall j :: 0 <= j < |level| ==> level[j].name != name
  {
    if |level| == 0 then None
    else if level[0].name == name then Some(0)
    else match FindByName(level[1..], name)
      case None => None
      case Some(j) => Some(j + 1)
  }

  // ---------------------------------------------------------------------
  // Reference definition of one insertion
  // ---------------------------------------------------------------------

  /** Inserts segments `parts[i..]` of identifier `id` into `level`. */
  function InsertParts(level: Forest, parts: seq<string>, i: nat, id: string): Result<Forest, TreeError>
    requires i <= |parts|
    decreases |parts| - i
  {
    if i == |parts| then Ok(level)
    else
      var isFile := i == |parts| - 1;
      match FindByName(level, parts[i])
      case Some(k) =>
        if isFile then Ok(level)
        else (
          match level[k]
          case File(_, _) => Err(CursorLost)
          case Folder(n, p, ch) =>
            match InsertParts(ch, parts, i + 1, id)
            case Ok(ch') => Ok(level[k := Folder(n, p, ch')])
            case Err(e) => Err(e))
      case None =>
        if isFile then Ok(level + [File(parts[i], id)])
        else (
          match InsertParts([], parts, i + 1, id)
          case Ok(ch) => Ok(level + [Folder(parts[i], Join(parts[..i + 1], "/"), ch)])
          case Err(e) => Err(e))
  }

  /** One identifier of the input list: `module:` identifiers are skipped. */
  function Ingest(forest: Forest, id: string): Result<Forest, TreeError> {
    if IsModuleId(id) then Ok(forest) else InsertParts(forest, Split(id, '/'), 0, id)
  }

  /** The forest after inserting `paths` in order, before sorting. */
  function BuildUnsorted(paths: seq<string>): Result<Forest, TreeError>
    decreases |paths|
  {
    if |paths| == 0 then Ok([])
    else match BuildUnsorted(paths[..|paths| - 1])
      case Ok(f) => Ingest(f, paths[|paths| - 1])
      case Err(e) => Err(e)
  }

  /** What `buildFileTree` returns (or the error it raises). */
  function BuildSpec(paths: seq<string>): Result<Forest, TreeError> {
    match BuildUnsorted(paths)
    case Ok(f) => Ok(SortNodes(f))
    case Err(e) => Err(e)
  }

  // ---------------------------------------------------------------------
  // Sorting: folders first, then by name
  // ---------------------------------------------------------------------

  /** The comparator of `sortNodes`: `a` may come before `b`. Names are
      compared by code points in place of `localeCompare`. */
  predicate Before(a: Node, b: Node) {
    (a.Folder? && b.File?) || (a.Folder? == b.Folder? && LexLe(a.name, b.name))
  }

  lemma BeforeIsTotalPreorder()
    ensures Sorting.IsTotalPreorder(Before)
  {
    forall a, b ensures Before(a, b) || Before(b, a) {
      LexLeTotal(a.name, b.name);
    }
    forall a, b, c | Before(a, b) && Before(b, c) ensures Before(a, c) {
      if a.Folder? == b.Folder? && b.Folder? == c.Folder? {
        LexLeTransitive(a.name, b.name, c.name);
      }
    }
  }

  /** `sortNodes`: every level sorted, recursively. Children are sorted
      before their level here; `SortLevelFirstSame` shows the source's order
      (level first) gives the same forest. */
  function SortNodes(level: Forest): Forest
    decreases level, 1
  {
    Sorting.SortBy(SortChildren(level), Before)
  }

  /** Each node of the level with its subtree sorted; the level's own order
      is kept. */
  function SortChildren(level: Forest): (r: Forest)
    ensures |r| == |level|
    ensures forall i :: 0 <= i < |level| ==> r[i] == SortNode(level[i])
    decreases level, 0
  {
    if |level| == 0 then [] else [SortNode(level[0])] + SortChildren(level[1..])
  }

  /** A folder with its subtree sorted; a file as it is. */
  function SortNode(n: Node): (r: Node)
    ensures r.name == n.name && r.path == n.path && r.Folder? == n.Folder?
    decreases n, 2
  {
    match n
    case Folder(name, path, ch) => Folder(name, path, SortNodes(ch))
    case File(_, _) => n
  }

  // ---------------------------------------------------------------------
  // The source's imperative walk
  // ---------------------------------------------------------------------

  /** The cursor: child indices from the root, each naming a folder. */
  predicate ValidCursor(level: Forest, cursor: seq<nat>)
    decreases |cursor|
  {
    |cursor| == 0 ||
    (cursor[0] < |level| && level[cursor[0]].Folder? &&
     ValidCursor(level[cursor[0]].children, cursor[1..]))
  }

  /** The array the cursor designates (`currentLevel`). */
  function LevelAt(level: Forest, cursor: seq<nat>): Forest
    requires ValidCursor(level, cursor)
    decreases |cursor|
  {
    if |cursor| == 0 then level
    else LevelAt(level[cursor[0]].children, cursor[1..])
  }

  /** The forest with the designated array replaced by `m`. */
  function UpdateAt(level: Forest, cursor: seq<nat>, m: Forest): Forest
    requires ValidCursor(level, cursor)
    decreases |cursor|
  {
    if |cursor| == 0 then m
    else
      var k := cursor[0];
      level[k := level[k].(children := UpdateAt(level[k].children, cursor[1..], m))]
  }

  lemma {:induction false} UpdateAtSame(f: Forest, c: seq<nat>)
    requires ValidCursor(f, c)
    ensures UpdateAt(f, c, LevelAt(f, c)) == f
    decreases |c|
  {
    if |c| > 0 {
      UpdateAtSame(f[c[0]].children, c[1..]);
    }
  }

  lemma {:induction false} UpdateAtThenLevelAt(f: Forest, c: seq<nat>, m: Forest, x: Forest)
    requires ValidCursor(f, c)
    ensures ValidCursor(UpdateAt(f, c, m), c)
    ensures LevelAt(UpdateAt(f, c, m), c) == m
    ensures UpdateAt(UpdateAt(f, c, m), c, x) == UpdateAt(f, c, x)
    decreases |c|
  {
    if |c| > 0 {
      UpdateAtThenLevelAt(f[c[0]].children, c[1..], m, x);
    }
  }

  lemma {:induction false} Descend(f: Forest, c: seq<nat>, k: nat, x: Forest)
    requires ValidCursor(f, c)
    requires k < |LevelAt(f, c)| && LevelAt(f, c)[k].Folder?
    ensures ValidCursor(f, c + [k])
    ensures LevelAt(f, c + [k]) == LevelAt(f, c)[k].children
    ensures UpdateAt(f, c + [k], x) ==
            UpdateAt(f, c, LevelAt(f, c)[k := LevelAt(f, c)[k].(children := x)])
    decreases |c|
  {
    if |c| == 0 {
      assert c + [k] == [k];
      assert (c + [k])[1..] == [];
    } else {
      assert (c + [k])[0] == c[0];
      assert (c + [k])[1..] == c[1..] + [k];
      Descend(f[c[0]].children, c[1..], k, x);
    }
  }

  /** The result of the remaining walk, placed back at the cursor. */
  function Lift(f: Forest, c: seq<nat>, r: Result<Forest, TreeError>): Result<Forest, TreeError>
    requires ValidCursor(f, c)
  {
    match r
    case Ok(l) => Ok(UpdateAt(f, c, l))
    case Err(e) => Err(e)
  }

  /** What is left to do, from segment `i` at the cursor, as a whole-forest
      result. */
  function Remaining(root: Forest, cursor: seq<nat>, parts: seq<string>, i: nat, id: string): Result<Forest, TreeError>
    requires ValidCursor(root, cursor) && i <= |parts|
  {
    Lift(root, cursor, InsertParts(LevelAt(root, cursor), parts, i, id))
  }

  /** A file whose name is already on the level is skipped: nothing is
      left to do. */
  lemma StepKeepFile(root: Forest, cursor: seq<nat>, parts: seq<string>, id: string)
    requires ValidCursor(root, cursor) && |parts| >= 1
    requires FindByName(LevelAt(root, cursor), parts[|parts| - 1]).Some?
    ensures Remaining(root, cursor, parts, |parts|, id) == Remaining(root, cursor, parts, |parts| - 1, id)
  {
  }

  /** A folder segment that names a file loses the cursor. */
  lemma StepLose(root: Forest, cursor: seq<nat>, parts: seq<string>, i: nat, id: string, k: nat)
    requires ValidCursor(root, cursor) && i < |parts| - 1
    requires FindByName(LevelAt(root, cursor), parts[i]) == Some(k)
    requires LevelAt(root, cursor)[k].File?
    ensures Remaining(root, cursor, parts, i, id) == Err(CursorLost)
  {
  }

  /** Moving the cursor into an existing folder leaves the outcome as it was. */
  lemma StepDescend(root: Forest, cursor: seq<nat>, parts: seq<string>, i: nat, id: string, k: nat)
    requires ValidCursor(root, cursor) && i < |parts| - 1
    requires FindByName(LevelAt(root, cursor), parts[i]) == Some(k)
    requires LevelAt(root, cursor)[k].Folder?
    ensures ValidCursor(root, cursor + [k])
    ensures Remaining(root, cursor + [k], parts, i + 1, id) == Remaining(root, cursor, parts, i, id)
  {
    var level := LevelAt(root, cursor);
    Descend(root, cursor, k, level[k].children);
    var rest := InsertParts(level[k].children, parts, i + 1, id);
    if rest.Ok? {
      Descend(root, cursor, k, rest.value);
    }
  }

  /** Appending the terminal file leaves the outcome as it was. */
  lemma StepPushFile(root: Forest, cursor: seq<nat>, parts: seq<string>, id: string)
    requires ValidCursor(root, cursor) && |parts| >= 1
    requires FindByName(LevelAt(root, cursor), parts[|parts| - 1]).None?
    ensures ValidCursor(UpdateAt(root, cursor, LevelAt(root, cursor) + [File(parts[|parts| - 1], id)]), cursor)
    ensures Remaining(UpdateAt(root, cursor, LevelAt(root, cursor) + [File(parts[|parts| - 1], id)]), cursor, parts, |parts|, id)
         == Remaining(root, cursor, parts, |parts| - 1, id)
  {
    var pushed := LevelAt(root, cursor) + [File(parts[|parts| - 1], id)];
    UpdateAtThenLevelAt(root, cursor, pushed, pushed);
  }

  /** Appending a new, empty folder and moving into it leaves the outcome as
      it was. */
  lemma StepPushFolder(root: Forest, cursor: seq<nat>, parts: seq<string>, i: nat, id: string)
    requires ValidCursor(root, cursor) && i < |parts| - 1
    requires FindByName(LevelAt(root, cursor), parts[i]).None?
    ensures var level := LevelAt(root, cursor);
            var root' := UpdateAt(root, cursor, level + [Folder(parts[i], Join(parts[..i + 1], "/"), [])]);
            ValidCursor(root', cursor + [|level|]) &&
            Remaining(root', cursor + [|level|], parts, i + 1, id) == Remaining(root, cursor, parts, i, id)
  {
    var level := LevelAt(root, cursor);
    var newNode := Folder(parts[i], Join(parts[..i + 1], "/"), []);
    var pushed := level + [newNode];
    var root' := UpdateAt(root, cursor, pushed);
    var rest := InsertParts([], parts, i + 1, id);
    UpdateAtThenLevelAt(root, cursor, pushed, pushed);
    Descend(root', cursor, |level|, []);
    if rest.Ok? {
      var full := level + [newNode.(children := rest.value)];
      Descend(root', cursor, |level|, rest.value);
      assert pushed[|level| := newNode.(children := rest.value)] == full;
      UpdateAtThenLevelAt(root, cursor, pushed, full);
    }
  }

  /** The body of the inner `parts.forEach`, for segment `i`: an existing
      folder becomes the level, a missing one is appended and becomes the
      level, a missing file is appended, an existing file is skipped, and
      a folder segment naming a file loses the level. */
  method InsertPart(root: Forest, cursor: seq<nat>, parts: seq<string>, i: nat, id: string)
    returns (root': Forest, cursor': seq<nat>, lost: bool)
    requires ValidCursor(root, cursor) && i < |parts|
    ensures ValidCursor(root', cursor')
    ensures lost ==> i < |parts| - 1 && Remaining(root, cursor, parts, i, id) == Err(CursorLost)
    ensures !lost ==> Remaining(root', cursor', parts, i + 1, id) == Remaining(root, cursor, parts, i, id)
  {
    root', cursor', lost := root, cursor, false;
    var level := LevelAt(root, cursor);
    var isFile := i == |parts| - 1;
    var existing := FindByName(level, parts[i]);
    if existing.Some? {
      var k := existing.value;
      if isFile {
        StepKeepFile(root, cursor, parts, id);
      } else if level[k].File? {
        StepLose(root, cursor, parts, i, id, k);
        lost := true;
      } else {
        StepDescend(root, cursor, parts, i, id, k);
        cursor' := cursor + [k];
      }
    } else if isFile {
      StepPushFile(root, cursor, parts, id);
      root' := UpdateAt(root, cursor, level + [File(parts[i], id)]);
    } else {
      StepPushFolder(root, cursor, parts, i, id);
      root' := UpdateAt(root, cursor, level + [Folder(parts[i], Join(parts[..i + 1], "/"), [])]);
      cursor' := cursor + [|level|];
    }
  }

  /** The inner `parts.forEach` of `buildFileTree` for one identifier. */
  method InsertPath(forest: Forest, id: string) returns (r: Result<Forest, TreeError>)
    ensures r == InsertParts(forest, Split(id, '/'), 0, id)
  {
    var parts := Split(id, '/');
    var root := forest;
    var cursor: seq<nat> := [];
    var lost := false;
    var i := 0;
    while i < |parts|
      invariant 0 <= i <= |parts|
      invariant ValidCursor(root, cursor)
      invariant lost ==> 0 < i < |parts| && InsertParts(forest, parts, 0, id) == Err(CursorLost)
      invariant !lost ==> Remaining(root, cursor, parts, i, id) == InsertParts(forest, parts, 0, id)
    {
      if lost {
        // `currentLevel` is undefined: `currentLevel.find` throws.
        return Err(CursorLost);
      }
      root, cursor, lost := InsertPart(root, cursor, parts, i, id);
      i := i + 1;
    }
    UpdateAtSame(root, cursor);
    return Ok(root);
  }

  /** `buildFileTree`: every identifier inserted in order, `module:` ones
      skipped, then every level sorted. An empty list gives an empty forest. */
  method BuildFileTree(paths: seq<string>) returns (r: Result<Forest, TreeError>)
    ensures r == BuildSpec(paths)
    ensures |paths| == 0 ==> r == Ok([])
  {
    var root: Forest := [];
    var i := 0;
    while i < |paths|
      invariant 0 <= i <= |paths|
      invariant BuildUnsorted(paths[..i]) == Ok(root)
    {
      assert paths[..i + 1][..i] == paths[..i];
      var path := paths[i];
      if !IsModuleId(path) {
        var res := InsertPath(root, path);
        if res.Err? {
          BuildStopsAtError(paths, i + 1);
          return Err(res.error);
        }
        root := res.value;
      }
      i := i + 1;
    }
    assert paths[..|paths|] == paths;
    return Ok(SortNodes(root));
  }

  /** Once an identifier fails, the whole build fails. */
  lemma {:induction false} BuildStopsAtError(paths: seq<string>, n: nat)
    requires n <= |paths| && BuildUnsorted(paths[..n]).Err?
    ensures BuildUnsorted(paths) == BuildUnsorted(paths[..n])
    decreases |paths| - n
  {
    if n < |paths| {
      assert paths[..n + 1][..n] == paths[..n];
      BuildStopsAtError(paths, n + 1);
    } else {
      assert paths[..n] == paths;
    }
  }
}

/** The explorer's interactive state in frontend/src/app/page.tsx: a tree
    row's click handler, the page's `handleOpenFile`, and the memoised tree
    built from the graph's node ids. React's `useState` setters become
    assignments to the fields of a class; a request the page would send is
    returned to the caller instead of being sent. */
module PageState {
  import opened Wrappers
  import opened Strings
  import opened FileTree

  /** One row of the tree (`FileTreeItem`): the node it shows and its own
      open flag, which starts closed. */
  class FileTreeItem {
    const node: Node
    var isOpen: bool

    constructor (node: Node)
      ensures this.node == node && !isOpen
    {
      this.node := node;
      isOpen := false;
    }

    /** `handleClick`: a folder toggles its open flag and selects nothing;
        a file hands its path to `onSelect` (the result) and keeps the flag. */
    method HandleClick() returns (selected: Option<string>)
      modifies this
      ensures node.Folder? ==> isOpen == !old(isOpen) && selected == None
      ensures node.File? ==> isOpen == old(isOpen) && selected == Some(node.path)
    {
      if node.Folder? {
        isOpen := !isOpen;
        selected := None;
      } else {
        selected := Some(node.path);
      }
    }
  }

  datatype BackendStatus = Online | Offline
  datatype Tab = GraphTab | CodeTab

  /** What `/read-file` answered: the reply's `error` field (absent or
      empty counts as no error, as JavaScript's truthiness test does) and its
      `content`, or no answer at all. */
  datatype Reply = Answered(error: string, content: Option<string>) | NoAnswer

  /** The text shown for a `module:` id: a docstring-like block naming the
      library, with the first `module:` removed from the id. */
  function ModulePlaceholder(filePath: string): string {
    "\"\"\"\nEXTERNAL LIBRARY: " + RemoveFirst(filePath, ModulePrefix)
      + "\nBinary content not available.\n\"\"\""
  }

  const ConnectionError: string := "# Error\nCould not connect to file server."

  /** The page's file-viewer state. */
  class Home {
    var backendStatus: BackendStatus
    var activeTab: Tab
    var selectedFile: Option<string>
    var fileContent: Option<string>
    var isFileLoading: bool

    constructor ()
      ensures backendStatus == Offline && activeTab == GraphTab
      ensures selectedFile == None && fileContent == None && !isFileLoading
    {
      backendStatus := Offline;
      activeTab := GraphTab;
      selectedFile := None;
      fileContent := None;
      isFileLoading := false;
    }

    /** `handleOpenFile` up to its request. Offline, nothing changes. Online,
        the id is selected and the code tab shown; a `module:` id gets the
        placeholder text and no request, any other id clears the content,
        starts loading and asks `/read-file` for that path (the result). */
    method HandleOpenFile(filePath: string) returns (request: Option<string>)
      modifies this
      ensures old(backendStatus) == Offline ==> unchanged(this) && request == None
      ensures old(backendStatus) == Online ==>
        backendStatus == Online && selectedFile == Some(filePath) && activeTab == CodeTab
      ensures old(backendStatus) == Online && IsModuleId(filePath) ==>
        fileContent == Some(ModulePlaceholder(filePath))
        && isFileLoading == old(isFileLoading) && request == None
      ensures old(backendStatus) == Online && !IsModuleId(filePath) ==>
        fileContent == None && isFileLoading && request == Some(filePath)
    {
      if backendStatus == Offline {
        return None;
      }
      selectedFile := Some(filePath);
      activeTab := CodeTab;
      if IsModuleId(filePath) {
        fileContent := Some(ModulePlaceholder(filePath));
        return None;
      }
      fileContent := None;
      isFileLoading := true;
      request := Some(filePath);
    }

    /** The rest of `handleOpenFile` once `/read-file` has answered (or
        failed): an error message, the content, or the connection error, and
        loading always ends. */
    method FinishOpenFile(reply: Reply)
      modifies this
      ensures !isFileLoading
      ensures backendStatus == old(backendStatus) && activeTab == old(activeTab)
      ensures selectedFile == old(selectedFile)
      ensures reply.NoAnswer? ==> fileContent == Some(ConnectionError)
      ensures reply.Answered? && reply.error != "" ==>
        fileContent == Some("# Error loading file\n" + reply.error)
      ensures reply.Answered? && reply.error == "" ==> fileContent == reply.content
    {
      match reply {
        case NoAnswer =>
          fileContent := Some(ConnectionError);
        case Answered(error, content) =>
          if error != "" {
            fileContent := Some("# Error loading file\n" + error);
          } else {
            fileContent := content;
          }
      }
      isFileLoading := false;
    }
  }

  /** A `module:` id's placeholder names the library: the id without its
      `module:` prefix appears in the text. */
  lemma PlaceholderNamesModule(filePath: string)
    requires IsModuleId(filePath)
    ensures RemoveFirst(filePath, ModulePrefix) == filePath[|ModulePrefix|..]
    ensures Contains(ModulePlaceholder(filePath), filePath[|ModulePrefix|..])
  {
    var a := "\"\"\"\nEXTERNAL LIBRARY: ";
    var b := filePath[|ModulePrefix|..];
    var c := "\nBinary content not available.\n\"\"\"";
    assert ModulePlaceholder(filePath) == a + (b + c);
    PrefixContained(b, c);
    ContainsAfter(a, b + c, b);
  }

  /** The memoised tree: no graph data gives an empty forest, otherwise the
      tree of the graph's node ids. */
  method FileTreeOf(nodeIds: Option<seq<string>>) returns (r: Result<Forest, TreeError>)
    ensures nodeIds.None? ==> r == Ok([])
    ensures nodeIds.Some? ==> r == BuildSpec(nodeIds.value)
  {
    if nodeIds.None? {
      return Ok([]);
    }
    r := BuildFileTree(nodeIds.value);
  }
}

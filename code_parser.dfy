/** The Python summariser of backend/core/parser.py. A `CodeParser` walks a
    module's syntax tree and records, in visiting order, every function
    (with rendered arguments, a return summary, its enclosing scope and its
    line), every class, every call (from the enclosing function or class,
    or "global") and every import. `analyze_file_structure` turns a parse
    failure into a fixed fallback record.

    The syntax tree is a small abstract one: the constructs the summariser
    looks at, and, for everything else, a node holding its sub-expressions
    and nested statements. `ast.unparse` is a function parameter whose
    result is `None` when it raises. */
module Parser {
  import opened Wrappers
  import opened Strings
  import Sorting

  /** `str(v)` and `type(v).__name__` of a literal. */
  datatype PyValue = PyValue(text: string, typeName: string)

  datatype Expr =
    | Name(id: string)
    | Constant(value: PyValue)
    | Call(func: Expr, args: seq<Expr>)
    | Attribute(receiver: Expr, attr: string)
    | Subscript(base: Expr, index: Expr)
    | OtherExpr(children: seq<Expr>)

  /** A positional parameter and its annotation. */
  datatype Arg = Arg(name: string, annotation: Option<Expr>)

  /** Statements. `Block` is any other statement: its own expressions,
      visited first, then the statements nested in it. */
  datatype Stmt =
    | FunctionDef(name: string, params: seq<Arg>, defaults: seq<Expr>, body: seq<Stmt>,
                  decorators: seq<Expr>, returnAnnotation: Option<Expr>, lineno: nat)
    | ClassDef(name: string, bases: seq<Expr>, body: seq<Stmt>, decorators: seq<Expr>, lineno: nat)
    | Return(value: Option<Expr>)
    | Import(names: seq<string>)
    | ImportFrom(moduleName: Option<string>)
    | ExprStmt(expr: Expr)
    | Block(exprs: seq<Expr>, body: seq<Stmt>)

  type Unparse = Expr -> Option<string>

  datatype FunctionInfo = FunctionInfo(name: string, args: seq<string>, returnsText: string,
                                       scope: Option<string>, lineno: Option<nat>)
  datatype ClassInfo = ClassInfo(name: string, lineno: nat)
  datatype CallInfo = CallInfo(caller: string, callee: string)

  /** The parser's `structure`: its four lists. */
  datatype Structure = Structure(functions: seq<FunctionInfo>, classes: seq<ClassInfo>,
                                 calls: seq<CallInfo>, imports: seq<string>)

  const Empty := Structure([], [], [], [])

  /** The four lists of `a` followed by those of `b`. */
  function Concat(a: Structure, b: Structure): Structure {
    Structure(a.functions + b.functions, a.classes + b.classes, a.calls + b.calls, a.imports + b.imports)
  }

  lemma ConcatAssoc(a: Structure, b: Structure, c: Structure)
    ensures Concat(Concat(a, b), c) == Concat(a, Concat(b, c))
  {
  }

  /** Appending five parts one after the other appends their concatenation. */
  lemma ConcatFive(s0: Structure, a: Structure, b: Structure, c: Structure, d: Structure, e: Structure)
    ensures Concat(Concat(Concat(Concat(Concat(s0, a), b), c), d), e)
      == Concat(s0, Concat(a, Concat(b, Concat(c, Concat(d, e)))))
  {
  }

  lemma ConcatEmpty(a: Structure)
    ensures Concat(a, Empty) == a && Concat(Empty, a) == a
  {
  }

  // ---------------------------------------------------------------------
  // Annotations, arguments and return summaries

  /** `get_annotation`: "Any" without an annotation, a name's identifier, a
      literal's text, and otherwise the unparsed source, with "Complex"
      (subscripts) or "Any" (anything else) when unparsing fails. */
  function GetAnnotation(annotation: Option<Expr>, unparse: Unparse): (r: string)
    ensures annotation.None? ==> r == "Any"
    ensures annotation.Some? && annotation.value.Name? ==> r == annotation.value.id
    ensures annotation.Some? && annotation.value.Constant? ==> r == annotation.value.value.text
    ensures annotation.Some? && !annotation.value.Name? && !annotation.value.Constant? ==>
      (unparse(annotation.value).Some? ==> r == unparse(annotation.value).value)
      && (unparse(annotation.value).None? ==> r == (if annotation.value.Subscript? then "Complex" else "Any"))
  {
    match annotation
    case None => "Any"
    case Some(e) =>
      match e
      case Name(id) => id
      case Constant(v) => v.text
      case Subscript(_, _) => unparse(e).GetOr("Complex")
      case _ => unparse(e).GetOr("Any")
  }

  /** One rendered parameter, `"name (type)"`. */
  function ArgText(a: Arg, unparse: Unparse): string {
    a.name + " (" + GetAnnotation(a.annotation, unparse) + ")"
  }

  /** The loop of `visit_FunctionDef` that renders the parameters in order. */
  method RenderArgs(params: seq<Arg>, unparse: Unparse) returns (rendered: seq<string>)
    ensures |rendered| == |params|
    ensures forall i :: 0 <= i < |params| ==>
      rendered[i] == params[i].name + " (" + GetAnnotation(params[i].annotation, unparse) + ")"
    ensures forall i :: 0 <= i < |params| && params[i].annotation.None? ==>
      rendered[i] == params[i].name + " (Any)"
  {
    rendered := [];
    var i := 0;
    while i < |params|
      invariant 0 <= i <= |params| && |rendered| == i
      invariant forall j :: 0 <= j < i ==> rendered[j] == ArgText(params[j], unparse)
    {
      var argType := "Any";
      if params[i].annotation.Some? {
        argType := GetAnnotation(params[i].annotation, unparse);
      }
      rendered := rendered + [params[i].name + " (" + argType + ")"];
      i := i + 1;
    }
  }

  /** The rendered parameters as a function, for the record specification. */
  function ArgTexts(params: seq<Arg>, unparse: Unparse): (r: seq<string>)
    ensures |r| == |params|
    ensures forall i :: 0 <= i < |params| ==> r[i] == ArgText(params[i], unparse)
  {
    seq(|params|, i requires 0 <= i < |params| => ArgText(params[i], unparse))
  }

  /** The values of the `return` statements with a value inside `s`,
      however deeply nested (`ast.walk` also enters nested functions and
      classes). The summary does not depend on the order. */
  function ReturnValues(s: Stmt): seq<Expr>
    decreases s, 1
  {
    match s
    case FunctionDef(_, _, _, body, _, _, _) => ReturnValuesIn(body)
    case ClassDef(_, _, body, _, _) => ReturnValuesIn(body)
    case Return(v) => if v.Some? then [v.value] else []
    case Block(_, body) => ReturnValuesIn(body)
    case _ => []
  }

  function ReturnValuesIn(ss: seq<Stmt>): seq<Expr>
    decreases ss, 0
  {
    if |ss| == 0 then [] else ReturnValues(ss[0]) + ReturnValuesIn(ss[1..])
  }

  /** One entry of `analyze_return`, `"name (type)"`: a name is dynamic, a
      literal has its own type, a call is an object named after the called
      name (or "call()"), anything else is "result (Any)"; a declared return
      annotation replaces the type. */
  function ReturnEntry(v: Expr, returnAnnotation: Option<Expr>, unparse: Unparse): string {
    var varName := match v
      case Name(id) => id
      case Constant(c) => c.text
      case Call(func, _) => if func.Name? then func.id + "()" else "call()"
      case _ => "result";
    var varType := match v
      case Name(_) => "dynamic"
      case Constant(c) => c.typeName
      case Call(_, _) => "object"
      case _ => "Any";
    var shownType := if returnAnnotation.Some? then GetAnnotation(returnAnnotation, unparse) else varType;
    varName + " (" + shownType + ")"
  }

  /** The final step of `analyze_return`: "void" without entries, otherwise
      the distinct entries in sorted order joined by `" | "`. */
  function Summarize(entries: seq<string>): string {
    if |entries| == 0 then "void"
    else Join(Sorting.SortBy(Sorting.Dedup(entries), LexLe), " | ")
  }

  /** `analyze_return`: the loop over the walked `return` values. */
  method AnalyzeReturn(f: Stmt, unparse: Unparse) returns (summary: string)
    requires f.FunctionDef?
    ensures summary == Summarize(ReturnEntries(f, unparse))
    ensures summary == "void" <==> |ReturnValues(f)| == 0
  {
    var values := ReturnValues(f);
    var returnInfo: seq<string> := [];
    var i := 0;
    while i < |values|
      invariant 0 <= i <= |values|
      invariant returnInfo == EntriesOf(values[..i], f.returnAnnotation, unparse)
    {
      assert values[..i + 1][..i] == values[..i];
      returnInfo := returnInfo + [ReturnEntry(values[i], f.returnAnnotation, unparse)];
      i := i + 1;
    }
    assert values[..i] == values;
    if |returnInfo| == 0 {
      return "void";
    }
    summary := Join(Sorting.SortBy(Sorting.Dedup(returnInfo), LexLe), " | ");
    SummaryNotVoid(returnInfo);
  }

  function EntriesOf(values: seq<Expr>, returnAnnotation: Option<Expr>, unparse: Unparse): (r: seq<string>)
    ensures |r| == |values|
    ensures forall i :: 0 <= i < |values| ==> r[i] == ReturnEntry(values[i], returnAnnotation, unparse)
  {
    if |values| == 0 then []
    else
      EntriesOf(values[..|values| - 1], returnAnnotation, unparse)
        + [ReturnEntry(values[|values| - 1], returnAnnotation, unparse)]
  }

  function ReturnEntries(f: Stmt, unparse: Unparse): seq<string>
    requires f.FunctionDef?
  {
    EntriesOf(ReturnValues(f), f.returnAnnotation, unparse)
  }

  /** Every entry holds " (", so a non-empty summary is never "void". */
  lemma SummaryNotVoid(entries: seq<string>)
    requires |entries| > 0
    requires forall i :: 0 <= i < |entries| ==> '(' in entries[i]
    ensures Summarize(entries) != "void"
    ensures '(' in Summarize(entries)
  {
    var sorted := Sorting.SortBy(Sorting.Dedup(entries), LexLe);
    assert entries[0] in multiset(sorted);
    assert entries[0] in sorted;
    var k :| 0 <= k < |sorted| && sorted[k] == entries[0];
    JoinContainsEach(sorted, " | ", k);
    ContainsChar(Join(sorted, " | "), sorted[k], '(');
  }

  /** A character of a contained string is a character of the container. */
  lemma {:induction false} ContainsChar(s: string, sub: string, c: char)
    requires Contains(s, sub) && c in sub
    ensures c in s
    decreases |s|
  {
    if StartsWith(s, sub) {
      var k :| 0 <= k < |sub| && sub[k] == c;
      assert s[..|sub|][k] == s[k];
    } else {
      ContainsChar(s[1..], sub, c);
    }
  }

  // ---------------------------------------------------------------------
  // What the visitor records

  /** `current_scope or "global"`. */
  function ScopeLabel(scope: Option<string>): string {
    if scope.Some? && scope.value != "" then scope.value else "global"
  }

  /** `visit_Call`'s own record: a call of a name, or of an attribute whose
      receiver is a name (the only node with an `id`), as "recv.attr". */
  function CallRecord(scope: Option<string>, func: Expr): seq<CallInfo> {
    match func
    case Name(id) => [CallInfo(ScopeLabel(scope), id)]
    case Attribute(receiver, attr) =>
      if receiver.Name? then [CallInfo(ScopeLabel(scope), receiver.id + "." + attr)] else []
    case _ => []
  }

  function CallsOnly(calls: seq<CallInfo>): Structure {
    Structure([], [], calls, [])
  }

  /** What visiting an expression records, in visiting order: a call's own
      record, then its callee, then its arguments. */
  function ExprRecords(scope: Option<string>, e: Expr): Structure
    decreases e, 1
  {
    match e
    case Name(_) => Empty
    case Constant(_) => Empty
    case Call(func, args) =>
      Concat(CallsOnly(CallRecord(scope, func)), Concat(ExprRecords(scope, func), ExprsRecords(scope, args)))
    case Attribute(receiver, _) => ExprRecords(scope, receiver)
    case Subscript(base, index) => Concat(ExprRecords(scope, base), ExprRecords(scope, index))
    case OtherExpr(children) => ExprsRecords(scope, children)
  }

  function ExprsRecords(scope: Option<string>, es: seq<Expr>): Structure
    decreases es, 0
  {
    if |es| == 0 then Empty else Concat(ExprRecords(scope, es[0]), ExprsRecords(scope, es[1..]))
  }

  function OptExprRecords(scope: Option<string>, e: Option<Expr>): Structure
    decreases e, 0
  {
    if e.Some? then ExprRecords(scope, e.value) else Empty
  }

  /** The parameter annotations, visited in order. */
  function ArgsRecords(scope: Option<string>, params: seq<Arg>): Structure
    decreases params, 0
  {
    if |params| == 0 then Empty
    else Concat(OptExprRecords(scope, params[0].annotation), ArgsRecords(scope, params[1..]))
  }

  /** The record of a function definition. */
  function FunctionRecord(scope: Option<string>, f: Stmt, unparse: Unparse): FunctionInfo
    requires f.FunctionDef?
  {
    FunctionInfo(f.name, ArgTexts(f.params, unparse), Summarize(ReturnEntries(f, unparse)), scope, Some(f.lineno))
  }

  /** What visiting a statement records. A function or class is recorded
      with the enclosing scope and its parts are visited inside its own. */
  function StmtRecords(scope: Option<string>, s: Stmt, unparse: Unparse): Structure
    decreases s, 2
  {
    match s
    case FunctionDef(name, _, _, _, _, _, _) =>
      Concat(Structure([FunctionRecord(scope, s, unparse)], [], [], []), FunctionChildrenRecords(Some(name), s, unparse))
    case ClassDef(name, _, _, _, lineno) =>
      Concat(Structure([], [ClassInfo(name, lineno)], [], []), ClassChildrenRecords(Some(name), s, unparse))
    case Return(value) => OptExprRecords(scope, value)
    case Import(names) => Structure([], [], [], names)
    case ImportFrom(moduleName) =>
      if moduleName.Some? && moduleName.value != "" then Structure([], [], [], [moduleName.value]) else Empty
    case ExprStmt(e) => ExprRecords(scope, e)
    case Block(exprs, body) => Concat(ExprsRecords(scope, exprs), StmtsRecords(scope, body, unparse))
  }

  /** What `generic_visit` of a function definition records, field by
      field: the parameters' annotations, the defaults, the body, the
      decorators and the return annotation. */
  function FunctionChildrenRecords(scope: Option<string>, f: Stmt, unparse: Unparse): Structure
    requires f.FunctionDef?
    decreases f, 1
  {
    Concat(ArgsRecords(scope, f.params),
      Concat(ExprsRecords(scope, f.defaults),
        Concat(StmtsRecords(scope, f.body, unparse),
          Concat(ExprsRecords(scope, f.decorators), OptExprRecords(scope, f.returnAnnotation)))))
  }

  /** What `generic_visit` of a class definition records: the bases, the
      body and the decorators. */
  function ClassChildrenRecords(scope: Option<string>, c: Stmt, unparse: Unparse): Structure
    requires c.ClassDef?
    decreases c, 1
  {
    Concat(ExprsRecords(scope, c.bases),
      Concat(StmtsRecords(scope, c.body, unparse), ExprsRecords(scope, c.decorators)))
  }

  function StmtsRecords(scope: Option<string>, ss: seq<Stmt>, unparse: Unparse): Structure
    decreases ss, 1
  {
    if |ss| == 0 then Empty else Concat(StmtRecords(scope, ss[0], unparse), StmtsRecords(scope, ss[1..], unparse))
  }

  /** The record `visit_FunctionDef` builds before visiting the body: the
      name, the rendered arguments, the return summary, the enclosing scope
      and the line. */
  method DescribeFunction(scope: Option<string>, f: Stmt, unparse: Unparse) returns (info: FunctionInfo)
    requires f.FunctionDef?
    ensures info == FunctionRecord(scope, f, unparse)
  {
    var argsList := RenderArgs(f.params, unparse);
    var returnDisplay := AnalyzeReturn(f, unparse);
    assert argsList == ArgTexts(f.params, unparse);
    info := FunctionInfo(f.name, argsList, returnDisplay, scope, Some(f.lineno));
  }

  // ---------------------------------------------------------------------
  // The visitor

  class CodeParser {
    var structure: Structure
    var currentScope: Option<string>
    const unparse: Unparse

    constructor (unparse: Unparse)
      ensures structure == Empty && currentScope == None && this.unparse == unparse
    {
      structure := Empty;
      currentScope := None;
      this.unparse := unparse;
    }

    /** `visit`: dispatch on the statement's kind; statements without a
        visitor of their own are visited generically. */
    method Visit(s: Stmt)
      modifies this
      ensures structure == Concat(old(structure), StmtRecords(old(currentScope), s, unparse))
      ensures currentScope == old(currentScope)
      decreases s, 2
    {
      match s
      case FunctionDef(_, _, _, _, _, _, _) => VisitFunctionDef(s);
      case ClassDef(_, _, _, _, _) => VisitClassDef(s);
      case Import(_) => VisitImport(s);
      case ImportFrom(_) => VisitImportFrom(s);
      case Return(value) => VisitOptExpr(value);
      case ExprStmt(e) => VisitExpr(e);
      case Block(exprs, body) =>
        ghost var s0, scope := structure, currentScope;
        VisitExprs(exprs);
        VisitAll(body);
        ConcatAssoc(s0, ExprsRecords(scope, exprs), StmtsRecords(scope, body, unparse));
    }

    method VisitAll(ss: seq<Stmt>)
      modifies this
      ensures structure == Concat(old(structure), StmtsRecords(old(currentScope), ss, unparse))
      ensures currentScope == old(currentScope)
      decreases ss, 1
    {
      ghost var s0, scope := structure, currentScope;
      if |ss| > 0 {
        Visit(ss[0]);
        VisitAll(ss[1..]);
        ConcatAssoc(s0, StmtRecords(scope, ss[0], unparse), StmtsRecords(scope, ss[1..], unparse));
      } else {
        ConcatEmpty(s0);
      }
    }

    /** `visit_FunctionDef`: record the function with the enclosing scope,
        then visit its parts inside its own scope and restore the old one. */
    method VisitFunctionDef(f: Stmt)
      requires f.FunctionDef?
      modifies this
      ensures structure == Concat(old(structure), StmtRecords(old(currentScope), f, unparse))
      ensures currentScope == old(currentScope)
      decreases f, 1
    {
      ghost var s0 := structure;
      var funcInfo := DescribeFunction(currentScope, f, unparse);
      structure := structure.(functions := structure.functions + [funcInfo]);
      assert structure == Concat(s0, Structure([funcInfo], [], [], []));
      var prevScope := currentScope;
      currentScope := Some(f.name);
      GenericVisitFunctionDef(f);
      currentScope := prevScope;
      ConcatAssoc(s0, Structure([funcInfo], [], [], []), FunctionChildrenRecords(Some(f.name), f, unparse));
    }

    /** `generic_visit` of a function definition: its fields in order. */
    method GenericVisitFunctionDef(f: Stmt)
      requires f.FunctionDef?
      modifies this
      ensures structure == Concat(old(structure), FunctionChildrenRecords(old(currentScope), f, unparse))
      ensures currentScope == old(currentScope)
      decreases f, 0
    {
      ghost var s0, scope := structure, currentScope;
      VisitArgs(f.params);
      VisitExprs(f.defaults);
      VisitAll(f.body);
      VisitExprs(f.decorators);
      VisitOptExpr(f.returnAnnotation);
      ConcatFive(s0, ArgsRecords(scope, f.params), ExprsRecords(scope, f.defaults),
        StmtsRecords(scope, f.body, unparse), ExprsRecords(scope, f.decorators), OptExprRecords(scope, f.returnAnnotation));
    }

    /** `visit_ClassDef`: record the class, then visit its parts inside its
        own scope and restore the old one. */
    method VisitClassDef(c: Stmt)
      requires c.ClassDef?
      modifies this
      ensures structure == Concat(old(structure), StmtRecords(old(currentScope), c, unparse))
      ensures currentScope == old(currentScope)
      decreases c, 1
    {
      ghost var s0, scope := structure, currentScope;
      var classInfo := ClassInfo(c.name, c.lineno);
      structure := structure.(classes := structure.classes + [classInfo]);
      assert structure == Concat(s0, Structure([], [classInfo], [], []));
      var prevScope := currentScope;
      currentScope := Some(c.name);
      GenericVisitClassDef(c);
      currentScope := prevScope;
      ConcatAssoc(s0, Structure([], [classInfo], [], []), ClassChildrenRecords(Some(c.name), c, unparse));
    }

    /** `generic_visit` of a class definition: its fields in order. */
    method GenericVisitClassDef(c: Stmt)
      requires c.ClassDef?
      modifies this
      ensures structure == Concat(old(structure), ClassChildrenRecords(old(currentScope), c, unparse))
      ensures currentScope == old(currentScope)
      decreases c, 0
    {
      ghost var s0, scope := structure, currentScope;
      VisitExprs(c.bases);
      VisitAll(c.body);
      VisitExprs(c.decorators);
      ConcatAssoc(Concat(s0, ExprsRecords(scope, c.bases)), StmtsRecords(scope, c.body, unparse), ExprsRecords(scope, c.decorators));
      ConcatAssoc(s0, ExprsRecords(scope, c.bases), Concat(StmtsRecords(scope, c.body, unparse), ExprsRecords(scope, c.decorators)));
    }

    /** `visit_Import`: every imported name, in order. */
    method VisitImport(s: Stmt)
      requires s.Import?
      modifies this
      ensures structure == old(structure).(imports := old(structure).imports + s.names)
      ensures currentScope == old(currentScope)
    {
      var i := 0;
      while i < |s.names|
        invariant 0 <= i <= |s.names|
        invariant structure == old(structure).(imports := old(structure).imports + s.names[..i])
        invariant currentScope == old(currentScope)
      {
        assert s.names[..i + 1] == s.names[..i] + [s.names[i]];
        structure := structure.(imports := structure.imports + [s.names[i]]);
        i := i + 1;
      }
      assert s.names[..i] == s.names;
    }

    /** `visit_ImportFrom`: the module, when it has a (non-empty) name. */
    method VisitImportFrom(s: Stmt)
      requires s.ImportFrom?
      modifies this
      ensures structure == Concat(old(structure), StmtRecords(old(currentScope), s, unparse))
      ensures currentScope == old(currentScope)
    {
      if s.moduleName.Some? && s.moduleName.value != "" {
        structure := structure.(imports := structure.imports + [s.moduleName.value]);
      }
    }

    /** `visit_Call`: record the call, then visit its callee and arguments. */
    method VisitCall(e: Expr)
      requires e.Call?
      modifies this
      ensures structure == Concat(old(structure), ExprRecords(old(currentScope), e))
      ensures currentScope == old(currentScope)
      decreases e, 0
    {
      ghost var s0, scope := structure, currentScope;
      var caller := if currentScope.Some? && currentScope.value != "" then currentScope.value else "global";
      if e.func.Name? {
        structure := structure.(calls := structure.calls + [CallInfo(caller, e.func.id)]);
      } else if e.func.Attribute? && e.func.receiver.Name? {
        structure := structure.(calls := structure.calls + [CallInfo(caller, e.func.receiver.id + "." + e.func.attr)]);
      }
      ghost var own := CallsOnly(CallRecord(scope, e.func));
      assert structure == Concat(s0, own);
      VisitExpr(e.func);
      VisitExprs(e.args);
      ConcatAssoc(s0, own, ExprRecords(scope, e.func));
      ConcatAssoc(Concat(s0, own), ExprRecords(scope, e.func), ExprsRecords(scope, e.args));
      ConcatAssoc(s0, own, Concat(ExprRecords(scope, e.func), ExprsRecords(scope, e.args)));
    }

    method VisitExpr(e: Expr)
      modifies this
      ensures structure == Concat(old(structure), ExprRecords(old(currentScope), e))
      ensures currentScope == old(currentScope)
      decreases e, 1
    {
      match e
      case Name(_) => ConcatEmpty(structure);
      case Constant(_) => ConcatEmpty(structure);
      case Call(_, _) => VisitCall(e);
      case Attribute(receiver, _) => VisitExpr(receiver);
      case Subscript(base, index) =>
        ghost var s0, scope := structure, currentScope;
        VisitExpr(base);
        VisitExpr(index);
        ConcatAssoc(s0, ExprRecords(scope, base), ExprRecords(scope, index));
      case OtherExpr(children) => VisitExprs(children);
    }

    method VisitExprs(es: seq<Expr>)
      modifies this
      ensures structure == Concat(old(structure), ExprsRecords(old(currentScope), es))
      ensures currentScope == old(currentScope)
      decreases es, 0
    {
      ghost var s0, scope := structure, currentScope;
      if |es| > 0 {
        VisitExpr(es[0]);
        VisitExprs(es[1..]);
        ConcatAssoc(s0, ExprRecords(scope, es[0]), ExprsRecords(scope, es[1..]));
      } else {
        ConcatEmpty(s0);
      }
    }

    method VisitOptExpr(e: Option<Expr>)
      modifies this
      ensures structure == Concat(old(structure), OptExprRecords(old(currentScope), e))
      ensures currentScope == old(currentScope)
      decreases e, 0
    {
      if e.Some? {
        VisitExpr(e.value);
      } else {
        ConcatEmpty(structure);
      }
    }

    method VisitArgs(params: seq<Arg>)
      modifies this
      ensures structure == Concat(old(structure), ArgsRecords(old(currentScope), params))
      ensures currentScope == old(currentScope)
      decreases params, 0
    {
      ghost var s0, scope := structure, currentScope;
      if |params| > 0 {
        VisitOptExpr(params[0].annotation);
        VisitArgs(params[1..]);
        ConcatAssoc(s0, OptExprRecords(scope, params[0].annotation), ArgsRecords(scope, params[1..]));
      } else {
        ConcatEmpty(s0);
      }
    }
  }

  // ---------------------------------------------------------------------
  // analyze_file_structure

  /** What reading and parsing a file gave: a module, a syntax error (with
      its line, when Python reports one), or any other failure. */
  datatype ParseOutcome = Parsed(body: seq<Stmt>) | SyntaxError(errorLine: Option<nat>) | OtherFailure

  const SyntaxErrorName: string := "\U{26A0}\U{FE0F} SYNTAX ERROR"

  /** `str(e.lineno)`. */
  function LineText(line: Option<nat>): string {
    if line.Some? then NatToString(line.value) else "None"
  }

  /** The structure `analyze_file_structure` returns for each outcome. */
  function FileRecords(outcome: ParseOutcome, unparse: Unparse): Structure {
    match outcome
    case Parsed(body) => StmtsRecords(None, body, unparse)
    case SyntaxError(line) =>
      Structure([FunctionInfo(SyntaxErrorName, ["Line " + LineText(line) + " (Error)"], "Invalid (Python)", None, line)],
                [], [], [])
    case OtherFailure => Empty
  }

  /** `analyze_file_structure`, from the parse outcome on. */
  method AnalyzeFileStructure(outcome: ParseOutcome, unparse: Unparse) returns (r: Structure)
    ensures r == FileRecords(outcome, unparse)
    ensures outcome.OtherFailure? ==> r == Empty
    ensures outcome.SyntaxError? ==>
      |r.functions| == 1 && r.functions[0].name == SyntaxErrorName
      && r.functions[0].lineno == outcome.errorLine && r.functions[0].scope == None
      && r.classes == [] && r.calls == [] && r.imports == []
  {
    match outcome
    case Parsed(body) =>
      var parser := new CodeParser(unparse);
      parser.VisitAll(body);
      r := parser.structure;
      assert Concat(Empty, StmtsRecords(None, body, unparse)) == StmtsRecords(None, body, unparse);
    case SyntaxError(line) =>
      r := Structure([FunctionInfo(SyntaxErrorName, ["Line " + LineText(line) + " (Error)"], "Invalid (Python)", None, line)],
                     [], [], []);
    case OtherFailure =>
      r := Empty;
  }
}

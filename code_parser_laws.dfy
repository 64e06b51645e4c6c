/** What the summariser guarantees: every recorded call comes from "global"
    or from a function or class recorded in the same file, every function
    record's scope is one the file defines, and a return summary depends
    only on which entries occur. */
module ParserLaws {
  import opened Wrappers
  import opened Strings
  import Sorting
  import opened Parser

  /** `n` names a recorded function or class. */
  predicate Defines(st: Structure, n: string) {
    (exists f :: f in st.functions && f.name == n) || (exists c :: c in st.classes && c.name == n)
  }

  /** Records made inside `scope`: every call comes from that scope's label
      or from something defined among the records, and every function was
      defined directly in `scope` or inside something defined there. */
  predicate ScopedIn(st: Structure, scope: Option<string>) {
    && (forall c | c in st.calls :: c.caller in {ScopeLabel(scope), "global"} || Defines(st, c.caller))
    && (forall f | f in st.functions :: f.scope == scope || (f.scope.Some? && Defines(st, f.scope.value)))
  }

  /** What the graph builder needs of a file: a call's source is the file
      ("global") or a recorded function or class. */
  predicate WellScoped(st: Structure) {
    forall c | c in st.calls :: c.caller == "global" || Defines(st, c.caller)
  }

  /** Expressions record calls only, all from the current scope's label. */
  predicate OnlyCallsFrom(st: Structure, caller: string) {
    st.functions == [] && st.classes == [] && st.imports == []
    && forall c | c in st.calls :: c.caller == caller
  }

  lemma DefinesConcat(a: Structure, b: Structure, n: string)
    ensures Defines(a, n) ==> Defines(Concat(a, b), n)
    ensures Defines(b, n) ==> Defines(Concat(a, b), n)
  {
    if Defines(a, n) {
      if exists f :: f in a.functions && f.name == n {
        var f :| f in a.functions && f.name == n;
        assert f in Concat(a, b).functions;
      } else {
        var c :| c in a.classes && c.name == n;
        assert c in Concat(a, b).classes;
      }
    }
    if Defines(b, n) {
      if exists f :: f in b.functions && f.name == n {
        var f :| f in b.functions && f.name == n;
        assert f in Concat(a, b).functions;
      } else {
        var c :| c in b.classes && c.name == n;
        assert c in Concat(a, b).classes;
      }
    }
  }

  lemma ScopedConcat(a: Structure, b: Structure, scope: Option<string>)
    requires ScopedIn(a, scope) && ScopedIn(b, scope)
    ensures ScopedIn(Concat(a, b), scope)
  {
    var st := Concat(a, b);
    forall c | c in st.calls
      ensures c.caller in {ScopeLabel(scope), "global"} || Defines(st, c.caller)
    {
      DefinesConcat(a, b, c.caller);
    }
    forall f | f in st.functions
      ensures f.scope == scope || (f.scope.Some? && Defines(st, f.scope.value))
    {
      if f.scope.Some? {
        DefinesConcat(a, b, f.scope.value);
      }
    }
  }

  lemma OnlyCallsConcat(a: Structure, b: Structure, caller: string)
    requires OnlyCallsFrom(a, caller) && OnlyCallsFrom(b, caller)
    ensures OnlyCallsFrom(Concat(a, b), caller)
  {
  }

  lemma {:induction false} ExprCallsFromScope(scope: Option<string>, e: Expr)
    ensures OnlyCallsFrom(ExprRecords(scope, e), ScopeLabel(scope))
    decreases e, 1
  {
    match e
    case Name(_) =>
    case Constant(_) =>
    case Call(func, args) =>
      ExprCallsFromScope(scope, func);
      ExprsCallsFromScope(scope, args);
      OnlyCallsConcat(ExprRecords(scope, func), ExprsRecords(scope, args), ScopeLabel(scope));
      OnlyCallsConcat(CallsOnly(CallRecord(scope, func)),
                      Concat(ExprRecords(scope, func), ExprsRecords(scope, args)), ScopeLabel(scope));
    case Attribute(receiver, _) =>
      ExprCallsFromScope(scope, receiver);
    case Subscript(base, index) =>
      ExprCallsFromScope(scope, base);
      ExprCallsFromScope(scope, index);
      OnlyCallsConcat(ExprRecords(scope, base), ExprRecords(scope, index), ScopeLabel(scope));
    case OtherExpr(children) =>
      ExprsCallsFromScope(scope, children);
  }

  lemma {:induction false} ExprsCallsFromScope(scope: Option<string>, es: seq<Expr>)
    ensures OnlyCallsFrom(ExprsRecords(scope, es), ScopeLabel(scope))
    decreases es, 0
  {
    if |es| > 0 {
      ExprCallsFromScope(scope, es[0]);
      ExprsCallsFromScope(scope, es[1..]);
      OnlyCallsConcat(ExprRecords(scope, es[0]), ExprsRecords(scope, es[1..]), ScopeLabel(scope));
    }
  }

  lemma OptExprCallsFromScope(scope: Option<string>, e: Option<Expr>)
    ensures OnlyCallsFrom(OptExprRecords(scope, e), ScopeLabel(scope))
  {
    if e.Some? {
      ExprCallsFromScope(scope, e.value);
    }
  }

  lemma {:induction false} ArgsCallsFromScope(scope: Option<string>, params: seq<Arg>)
    ensures OnlyCallsFrom(ArgsRecords(scope, params), ScopeLabel(scope))
    decreases |params|
  {
    if |params| > 0 {
      OptExprCallsFromScope(scope, params[0].annotation);
      ArgsCallsFromScope(scope, params[1..]);
      OnlyCallsConcat(OptExprRecords(scope, params[0].annotation), ArgsRecords(scope, params[1..]), ScopeLabel(scope));
    }
  }

  /** Expression records are scoped in any scope. */
  lemma OnlyCallsScoped(st: Structure, scope: Option<string>)
    requires OnlyCallsFrom(st, ScopeLabel(scope))
    ensures ScopedIn(st, scope)
  {
  }

  /** Records made inside a definition named `name`, seen from the scope
      around it: the definition's own label is now a defined name. */
  lemma Widen(outer: Structure, inner: Structure, name: string, scope: Option<string>)
    requires ScopedIn(inner, Some(name))
    requires Defines(outer, name) && ScopedIn(outer, scope)
    ensures ScopedIn(Concat(outer, inner), scope)
  {
    var st := Concat(outer, inner);
    DefinesConcat(outer, inner, name);
    forall c | c in st.calls
      ensures c.caller in {ScopeLabel(scope), "global"} || Defines(st, c.caller)
    {
      DefinesConcat(outer, inner, c.caller);
    }
    forall f | f in st.functions
      ensures f.scope == scope || (f.scope.Some? && Defines(st, f.scope.value))
    {
      if f.scope.Some? {
        DefinesConcat(outer, inner, f.scope.value);
      }
    }
  }

  lemma {:induction false} StmtScoped(scope: Option<string>, s: Stmt, unparse: Unparse)
    ensures ScopedIn(StmtRecords(scope, s, unparse), scope)
    decreases s, 2
  {
    match s
    case FunctionDef(name, params, defaults, body, decorators, returnAnnotation, _) =>
      var inner := Some(name);
      var head := Structure([FunctionRecord(scope, s, unparse)], [], [], []);
      assert head.functions[0].name == name;
      assert Defines(head, name);
      var a := ArgsRecords(inner, params);
      var d := ExprsRecords(inner, defaults);
      var b := StmtsRecords(inner, body, unparse);
      var dec := ExprsRecords(inner, decorators);
      var r := OptExprRecords(inner, returnAnnotation);
      ArgsCallsFromScope(inner, params);
      ExprsCallsFromScope(inner, defaults);
      StmtsScoped(inner, body, unparse);
      ExprsCallsFromScope(inner, decorators);
      OptExprCallsFromScope(inner, returnAnnotation);
      OnlyCallsScoped(a, inner);
      OnlyCallsScoped(d, inner);
      OnlyCallsScoped(dec, inner);
      OnlyCallsScoped(r, inner);
      ScopedConcat(dec, r, inner);
      ScopedConcat(b, Concat(dec, r), inner);
      ScopedConcat(d, Concat(b, Concat(dec, r)), inner);
      ScopedConcat(a, Concat(d, Concat(b, Concat(dec, r))), inner);
      assert FunctionChildrenRecords(inner, s, unparse) == Concat(a, Concat(d, Concat(b, Concat(dec, r))));
      Widen(head, Concat(a, Concat(d, Concat(b, Concat(dec, r)))), name, scope);
    case ClassDef(name, bases, body, decorators, lineno) =>
      var inner := Some(name);
      var head := Structure([], [ClassInfo(name, lineno)], [], []);
      assert head.classes[0].name == name;
      assert Defines(head, name);
      var bs := ExprsRecords(inner, bases);
      var b := StmtsRecords(inner, body, unparse);
      var dec := ExprsRecords(inner, decorators);
      ExprsCallsFromScope(inner, bases);
      StmtsScoped(inner, body, unparse);
      ExprsCallsFromScope(inner, decorators);
      OnlyCallsScoped(bs, inner);
      OnlyCallsScoped(dec, inner);
      ScopedConcat(b, dec, inner);
      ScopedConcat(bs, Concat(b, dec), inner);
      assert ClassChildrenRecords(inner, s, unparse) == Concat(bs, Concat(b, dec));
      Widen(head, Concat(bs, Concat(b, dec)), name, scope);
    case Return(value) =>
      OptExprCallsFromScope(scope, value);
      OnlyCallsScoped(OptExprRecords(scope, value), scope);
    case Import(_) =>
    case ImportFrom(_) =>
    case ExprStmt(e) =>
      ExprCallsFromScope(scope, e);
      OnlyCallsScoped(ExprRecords(scope, e), scope);
    case Block(exprs, body) =>
      ExprsCallsFromScope(scope, exprs);
      OnlyCallsScoped(ExprsRecords(scope, exprs), scope);
      StmtsScoped(scope, body, unparse);
      ScopedConcat(ExprsRecords(scope, exprs), StmtsRecords(scope, body, unparse), scope);
  }

  lemma {:induction false} StmtsScoped(scope: Option<string>, ss: seq<Stmt>, unparse: Unparse)
    ensures ScopedIn(StmtsRecords(scope, ss, unparse), scope)
    decreases ss, 1
  {
    if |ss| > 0 {
      StmtScoped(scope, ss[0], unparse);
      StmtsScoped(scope, ss[1..], unparse);
      ScopedConcat(StmtRecords(scope, ss[0], unparse), StmtsRecords(scope, ss[1..], unparse), scope);
    }
  }

  /** Whatever the parse outcome, the file's records are well scoped: a
      call's source is "global" or a function or class of the same file,
      and a function's scope is absent or such a name. */
  lemma FileRecordsWellScoped(outcome: ParseOutcome, unparse: Unparse)
    ensures WellScoped(FileRecords(outcome, unparse))
    ensures forall f | f in FileRecords(outcome, unparse).functions ::
      f.scope == None || Defines(FileRecords(outcome, unparse), f.scope.value)
  {
    if outcome.Parsed? {
      StmtsScoped(None, outcome.body, unparse);
    }
  }

  // ---------------------------------------------------------------------
  // Return summaries

  lemma LexLeOrders()
    ensures Sorting.IsTotalPreorder(LexLe) && Sorting.IsAntisymmetric(LexLe)
  {
    forall a, b ensures LexLe(a, b) || LexLe(b, a) {
      LexLeTotal(a, b);
    }
    forall a, b, c | LexLe(a, b) && LexLe(b, c) ensures LexLe(a, c) {
      LexLeTransitive(a, b, c);
    }
    forall a, b | LexLe(a, b) && LexLe(b, a) ensures a == b {
      LexLeAntisymmetric(a, b);
    }
  }

  /** The summary depends only on which entries occur: not on the order in
      which the tree is walked, nor on repeats. */
  lemma SummaryIgnoresOrderAndRepeats(a: seq<string>, b: seq<string>)
    requires forall x :: x in a <==> x in b
    ensures Summarize(a) == Summarize(b)
  {
    LexLeOrders();
    Sorting.SortedSetDependsOnElementsOnly(a, b, LexLe);
  }

  /** Every entry appears in the summary. */
  lemma SummaryShowsEach(entries: seq<string>, i: nat)
    requires i < |entries|
    ensures Contains(Summarize(entries), entries[i])
  {
    var sorted := Sorting.SortBy(Sorting.Dedup(entries), LexLe);
    assert entries[i] in multiset(sorted);
    assert entries[i] in sorted;
    var k :| 0 <= k < |sorted| && sorted[k] == entries[i];
    JoinContainsEach(sorted, " | ", k);
  }

  /** The summary lists its entries in sorted order, once each. */
  lemma SummarySortedOnce(entries: seq<string>)
    requires |entries| > 0
    ensures var parts := Sorting.SortBy(Sorting.Dedup(entries), LexLe);
      Summarize(entries) == Join(parts, " | ")
      && Sorting.SortedBy(parts, LexLe) && Sorting.NoDup(parts)
      && forall x :: x in parts <==> x in entries
  {
    LexLeOrders();
    Sorting.SortedDedup(entries, LexLe);
  }
}

/*
 * Where VisitModule puts things: the imports' declarations first, then the
 * compiled functions, in module order, then one alias per export pointing
 * at the function the export names.
 */
module ModuleLayout {
  import opened WasmAst
  import opened TargetIr
  import opened Translation
  import opened TranslationLemmas
  import opened EmissionProperties

  /** The external declaration VisitImport produces for `imp`. */
  function ImportDeclaration(imp: Import): (f: IrFunction)
    ensures f.name == Mangle(imp.moduleName, imp.funcName) && f.linkage == External && f.blocks == []
    ensures f.retType == MapType(imp.callable.resultType) && |f.params| == |imp.callable.args|
  {
    Declaration(imp.callable, External).(name := Mangle(imp.moduleName, imp.funcName))
  }

  /** Import `i` becomes the function right after the `i` before it. */
  lemma {:induction false} ImportAllFunctionAt(s: State, imports: seq<Import>, i: nat)
    requires StateOk(s) && i < |imports|
    ensures ImportAll(s, imports).functions[|s.functions| + i] == ImportDeclaration(imports[i])
    decreases |imports|
  {
    var last := |imports| - 1;
    var prev := ImportAll(s, imports[..last]);
    assert ImportAll(s, imports) == ImportStep(prev, imports[last]);
    if i < last {
      ImportAllFunctionAt(s, imports[..last], i);
      assert imports[..last][i] == imports[i];
    }
  }

  /** The import loop's last step keeps every entry the earlier steps made. */
  lemma {:induction false} ImportAllTableKeeps(s: State, imports: seq<Import>, x: CallableId)
    requires StateOk(s) && imports != []
    requires x in ImportAll(s, imports[..|imports| - 1]).table
    ensures x in ImportAll(s, imports).table
    ensures ImportAll(s, imports).table[x] == ImportAll(s, imports[..|imports| - 1]).table[x]
  {
    var last := |imports| - 1;
    var prev := ImportAll(s, imports[..last]);
    assert ImportAll(s, imports).table == Emplace(prev.table, imports[last].callable.id, |prev.functions|);
    EmplaceKeeps(prev.table, imports[last].callable.id, |prev.functions|, x);
  }

  /** The import loop's last step registers the last import at its index
      when its id is new. */
  lemma {:induction false} ImportAllTableLast(s: State, imports: seq<Import>)
    requires StateOk(s) && imports != []
    requires imports[|imports| - 1].callable.id !in s.table
    requires forall k | 0 <= k < |imports| - 1 :: imports[k].callable.id != imports[|imports| - 1].callable.id
    ensures imports[|imports| - 1].callable.id in ImportAll(s, imports).table
    ensures ImportAll(s, imports).table[imports[|imports| - 1].callable.id] == |s.functions| + |imports| - 1
  {
    var last := |imports| - 1;
    var id := imports[last].callable.id;
    var prev := ImportAll(s, imports[..last]);
    assert ImportAll(s, imports).table == Emplace(prev.table, id, |prev.functions|);
    ImportIdsMember(imports[..last], id);
    EmplaceKeeps(prev.table, id, |prev.functions|, id);
  }

  /** The id of import `i` maps to that import's function when neither the
      table nor an earlier import had registered it: the first registration
      of an id is the one that stays. */
  lemma {:induction false} ImportAllTableAt(s: State, imports: seq<Import>, i: nat)
    requires StateOk(s) && i < |imports|
    requires imports[i].callable.id !in s.table
    requires forall k | 0 <= k < i :: imports[k].callable.id != imports[i].callable.id
    ensures imports[i].callable.id in ImportAll(s, imports).table
    ensures ImportAll(s, imports).table[imports[i].callable.id] == |s.functions| + i
    decreases |imports|
  {
    var last := |imports| - 1;
    if i < last {
      ImportAllTableAt(s, imports[..last], i);
      ImportAllTableKeeps(s, imports, imports[i].callable.id);
    } else {
      ImportAllTableLast(s, imports);
    }
  }

  /** Compiling functions never changes an entry that is already registered. */
  lemma {:induction false} CompileAllTableFrame(s: State, funcs: seq<Function>, x: CallableId)
    requires StateOk(s) && BodiesOrdered(s.table.Keys, funcs)
    requires x in s.table
    ensures x in CompileAll(s, funcs).table && CompileAll(s, funcs).table[x] == s.table[x]
    decreases |funcs|
  {
    if funcs != [] {
      CompileAllTableFrame(s, funcs[..|funcs| - 1], x);
      CompileAllTableKeeps(s, funcs, x);
    }
  }

  /** `g` is what VisitFunction makes of `f`: the declaration of its
      callable, internal, with a single "entry" block that ends in a
      terminator. */
  predicate CompiledFrom(g: IrFunction, f: Function)
  {
    |g.blocks| == 1 && g == WithEntry(Declaration(f.callable, Internal), g.blocks[0].instrs) &&
    HasTerminator(g.blocks[0].instrs)
  }

  /** VisitFunction adds one function, compiled from `f`, after the existing
      ones, which stay as they are; the function's id maps to it. */
  lemma {:induction false} CompileStepShape(s: State, f: Function)
    requires StateOk(s) && AllCallsIn(f.body, s.table.Keys + {f.callable.id})
    ensures var r := CompileStep(s, f);
            var n := |s.functions|;
            |r.functions| == n + 1 && r.functions[..n] == s.functions &&
            r.table == Emplace(s.table, f.callable.id, n) && r.aliases == s.aliases &&
            CompiledFrom(r.functions[n], f)
  {
    var n := |s.functions|;
    var env := Env(Emplace(s.table, f.callable.id, n),
                   RetTypes(s.functions) + [Declaration(f.callable, Internal).retType], BlockRef(n, 0));
    CompileStepEntry(s, f, env);
    EntryTerminated(f, env);
    assert (s.functions + [WithEntry(Declaration(f.callable, Internal), EntryCode(f, env))])[..n] == s.functions;
  }

  /** The function loop's last step, as seen by the function list. */
  lemma {:induction false} CompileAllFunctionsStep(s: State, funcs: seq<Function>)
    requires StateOk(s) && BodiesOrdered(s.table.Keys, funcs) && funcs != []
    ensures BodiesOrdered(s.table.Keys, funcs[..|funcs| - 1])
    ensures var prev := CompileAll(s, funcs[..|funcs| - 1]);
            var r := CompileAll(s, funcs);
            |prev.functions| == |s.functions| + |funcs| - 1 && |r.functions| == |s.functions| + |funcs| &&
            r.functions[..|s.functions| + |funcs| - 1] == prev.functions &&
            CompiledFrom(r.functions[|s.functions| + |funcs| - 1], funcs[|funcs| - 1])
  {
    CompileAllLast(s, funcs);
    CompileStepShape(CompileAll(s, funcs[..|funcs| - 1]), funcs[|funcs| - 1]);
  }

  /** Function `j` becomes the function at `|s.functions| + j`, compiled from it. */
  lemma {:induction false} CompileAllFunctionAt(s: State, funcs: seq<Function>, j: nat, at: nat)
    requires StateOk(s) && BodiesOrdered(s.table.Keys, funcs) && j < |funcs| && at == |s.functions| + j
    ensures at < |CompileAll(s, funcs).functions| && CompiledFrom(CompileAll(s, funcs).functions[at], funcs[j])
    decreases |funcs|
  {
    var last := |funcs| - 1;
    CompileAllFunctionsStep(s, funcs);
    if j < last {
      var prev := CompileAll(s, funcs[..last]);
      CompileAllFunctionAt(s, funcs[..last], j, at);
      assert funcs[..last][j] == funcs[j];
      var fs := CompileAll(s, funcs).functions;
      assert fs[at] == fs[..|s.functions| + |funcs| - 1][at] == prev.functions[at];
    } else {
      assert j == |funcs| - 1 && at == |s.functions| + |funcs| - 1;
    }
  }

  /** The function loop's last step. */
  lemma {:induction false} CompileAllLast(s: State, funcs: seq<Function>)
    requires StateOk(s) && BodiesOrdered(s.table.Keys, funcs) && funcs != []
    ensures BodiesOrdered(s.table.Keys, funcs[..|funcs| - 1])
    ensures var prev := CompileAll(s, funcs[..|funcs| - 1]);
            AllCallsIn(funcs[|funcs| - 1].body, prev.table.Keys + {funcs[|funcs| - 1].callable.id}) &&
            CompileAll(s, funcs) == CompileStep(prev, funcs[|funcs| - 1])
  {
    var last := |funcs| - 1;
    CompileAllStep(s, funcs, last);
    assert funcs[..last + 1] == funcs;
  }

  /** The function loop's last step, as seen by the symbol table. */
  lemma {:induction false} CompileAllTableStep(s: State, funcs: seq<Function>)
    requires StateOk(s) && BodiesOrdered(s.table.Keys, funcs) && funcs != []
    ensures BodiesOrdered(s.table.Keys, funcs[..|funcs| - 1])
    ensures var prev := CompileAll(s, funcs[..|funcs| - 1]);
            |prev.functions| == |s.functions| + |funcs| - 1 &&
            CompileAll(s, funcs).table == Emplace(prev.table, funcs[|funcs| - 1].callable.id, |prev.functions|)
  {
    CompileAllLast(s, funcs);
  }

  /** The function loop's last step keeps every entry the earlier steps made. */
  lemma {:induction false} CompileAllTableKeeps(s: State, funcs: seq<Function>, x: CallableId)
    requires StateOk(s) && BodiesOrdered(s.table.Keys, funcs) && funcs != []
    requires x in CompileAll(s, funcs[..|funcs| - 1]).table
    ensures x in CompileAll(s, funcs).table
    ensures CompileAll(s, funcs).table[x] == CompileAll(s, funcs[..|funcs| - 1]).table[x]
  {
    var last := |funcs| - 1;
    CompileAllTableStep(s, funcs);
    var prev := CompileAll(s, funcs[..last]);
    EmplaceKeeps(prev.table, funcs[last].callable.id, |prev.functions|, x);
  }

  /** The function loop's last step registers the last function at its
      index when its id is new. */
  lemma {:induction false} CompileAllTableLast(s: State, funcs: seq<Function>)
    requires StateOk(s) && BodiesOrdered(s.table.Keys, funcs) && funcs != []
    requires funcs[|funcs| - 1].callable.id !in s.table
    requires forall k | 0 <= k < |funcs| - 1 :: funcs[k].callable.id != funcs[|funcs| - 1].callable.id
    ensures funcs[|funcs| - 1].callable.id in CompileAll(s, funcs).table
    ensures CompileAll(s, funcs).table[funcs[|funcs| - 1].callable.id] == |s.functions| + |funcs| - 1
  {
    var last := |funcs| - 1;
    var id := funcs[last].callable.id;
    CompileAllTableStep(s, funcs);
    var prev := CompileAll(s, funcs[..last]);
    FunctionIdsMember(funcs[..last], id);
    EmplaceKeeps(prev.table, id, |prev.functions|, id);
  }

  /** The id of function `j` maps to that function when neither the table
      nor an earlier function had registered it: the first registration of
      an id is the one that stays. */
  lemma {:induction false} CompileAllTableAt(s: State, funcs: seq<Function>, j: nat)
    requires StateOk(s) && BodiesOrdered(s.table.Keys, funcs) && j < |funcs|
    requires funcs[j].callable.id !in s.table
    requires forall k | 0 <= k < j :: funcs[k].callable.id != funcs[j].callable.id
    ensures funcs[j].callable.id in CompileAll(s, funcs).table
    ensures CompileAll(s, funcs).table[funcs[j].callable.id] == |s.functions| + j
    decreases |funcs|
  {
    var last := |funcs| - 1;
    if j < last {
      CompileAllTableAt(s, funcs[..last], j);
      CompileAllTableKeeps(s, funcs, funcs[j].callable.id);
    } else {
      CompileAllTableLast(s, funcs);
    }
  }

  /** Export `k` becomes the alias right after the `k` before it: the
      mangled export name, external, aliasing the function its target is
      registered to. */
  lemma {:induction false} ExportAllLayout(s: State, exports: seq<Export>, k: nat, at: nat)
    requires ExportsRegistered(s.table.Keys, exports) && k < |exports| && at == |s.aliases| + k
    ensures at < |ExportAll(s, exports).aliases|
    ensures ExportAll(s, exports).aliases[at] ==
              Alias(Mangle(exports[k].moduleName, exports[k].name), External, s.table[exports[k].target.callable.id])
    decreases |exports|
  {
    var last := |exports| - 1;
    ExportAllStep(s, exports, last);
    assert exports[..last + 1] == exports;
    if k < last {
      ExportAllLayout(s, exports[..last], k, at);
      assert exports[..last][k] == exports[k];
    }
  }

  /** The target of export `k`'s alias. */
  lemma {:induction false} ExportAllTarget(s: State, exports: seq<Export>, k: nat, at: nat)
    requires ExportsRegistered(s.table.Keys, exports) && k < |exports| && at == |s.aliases| + k
    ensures at < |ExportAll(s, exports).aliases|
    ensures ExportAll(s, exports).aliases[at].target == s.table[exports[k].target.callable.id]
  {
    ExportAllLayout(s, exports, k, at);
  }

  /** VisitModule is the three loops in a row. */
  lemma {:induction false} TranslateIs(s: State, m: Module)
    requires StateOk(s) && ModuleReady(s.table.Keys, m)
    ensures var s1 := ImportAll(s, m.imports);
            BodiesOrdered(s1.table.Keys, m.functions) &&
            var s2 := CompileAll(s1, m.functions);
            ExportsRegistered(s2.table.Keys, m.exports) && Translate(s, m) == ExportAll(s2, m.exports) &&
            |s1.functions| == |s.functions| + |m.imports| && |s2.aliases| == |s.aliases|
  {
  }

  /** After VisitModule, import `i` is the external declaration at
      `|s.functions| + i`. */
  lemma {:induction false} TranslateImport(s: State, m: Module, i: nat)
    requires StateOk(s) && ModuleReady(s.table.Keys, m) && i < |m.imports|
    ensures var r := Translate(s, m);
            |s.functions| + i < |r.functions| && r.functions[|s.functions| + i] == ImportDeclaration(m.imports[i])
  {
    TranslateIs(s, m);
    var s1 := ImportAll(s, m.imports);
    var s2 := CompileAll(s1, m.functions);
    ImportAllFunctionAt(s, m.imports, i);
    assert s2.functions[..|s1.functions|] == s1.functions;
    assert s2.functions[|s.functions| + i] == s1.functions[|s.functions| + i];
  }

  /** With fresh, distinct ids, after VisitModule the symbol table maps
      import `i` to its declaration, so calls to it resolve there. */
  lemma {:induction false} TranslateImportTable(s: State, m: Module, i: nat)
    requires StateOk(s) && ModuleReady(s.table.Keys, m) && FreshIds(s.table.Keys, m) && i < |m.imports|
    ensures var r := Translate(s, m);
            m.imports[i].callable.id in r.table && r.table[m.imports[i].callable.id] == |s.functions| + i
  {
    TranslateIs(s, m);
    var s1 := ImportAll(s, m.imports);
    ImportFresh(s.table.Keys, m, i);
    ImportAllTableAt(s, m.imports, i);
    CompileAllTableFrame(s1, m.functions, m.imports[i].callable.id);
  }

  /** After VisitModule, function `j` is the internal function at
      `|s.functions| + |m.imports| + j`: its declaration with a single
      terminated "entry" block. */
  lemma {:induction false} TranslateFunction(s: State, m: Module, j: nat)
    requires StateOk(s) && ModuleReady(s.table.Keys, m) && j < |m.functions|
    ensures var r := Translate(s, m);
            var at := |s.functions| + |m.imports| + j;
            at < |r.functions| && CompiledFrom(r.functions[at], m.functions[j])
  {
    TranslateIs(s, m);
    CompileAllFunctionAt(ImportAll(s, m.imports), m.functions, j, |s.functions| + |m.imports| + j);
  }

  /** With fresh, distinct ids, after VisitModule the symbol table maps
      function `j` to its compiled body. */
  lemma {:induction false} TranslateFunctionTable(s: State, m: Module, j: nat)
    requires StateOk(s) && ModuleReady(s.table.Keys, m) && FreshIds(s.table.Keys, m) && j < |m.functions|
    ensures var r := Translate(s, m);
            m.functions[j].callable.id in r.table && r.table[m.functions[j].callable.id] == |s.functions| + |m.imports| + j
  {
    TranslateIs(s, m);
    FunctionFresh(s.table.Keys, m, j);
    CompileAllTableAt(ImportAll(s, m.imports), m.functions, j);
  }

  /** After VisitModule, export `k` is the alias at `|s.aliases| + k`; when
      it names function `j` of the module (ids fresh and distinct), the alias
      points at that function's compiled body. */
  lemma {:induction false} TranslateExport(s: State, m: Module, k: nat, j: nat)
    requires StateOk(s) && ModuleReady(s.table.Keys, m) && FreshIds(s.table.Keys, m)
    requires k < |m.exports| && j < |m.functions| && m.exports[k].target.callable.id == m.functions[j].callable.id
    ensures var r := Translate(s, m);
            |s.aliases| + k < |r.aliases| &&
            r.aliases[|s.aliases| + k] ==
              Alias(Mangle(m.exports[k].moduleName, m.exports[k].name), External, |s.functions| + |m.imports| + j)
  {
    TranslateIs(s, m);
    var s1 := ImportAll(s, m.imports);
    var s2 := CompileAll(s1, m.functions);
    FunctionFresh(s.table.Keys, m, j);
    CompileAllTableAt(s1, m.functions, j);
    assert s2.table[m.exports[k].target.callable.id] == |s.functions| + |m.imports| + j;
    ExportAllLayout(s2, m.exports, k, |s.aliases| + k);
  }

  /** Two exports of the same callable become aliases of the same function. */
  lemma {:induction false} ExportAllSameTarget(s: State, exports: seq<Export>, k1: nat, k2: nat, base: nat)
    requires ExportsRegistered(s.table.Keys, exports) && k1 < |exports| && k2 < |exports| && base == |s.aliases|
    requires exports[k1].target.callable.id == exports[k2].target.callable.id
    ensures base + k1 < |ExportAll(s, exports).aliases| && base + k2 < |ExportAll(s, exports).aliases|
    ensures ExportAll(s, exports).aliases[base + k1].target == ExportAll(s, exports).aliases[base + k2].target
  {
    ExportAllTarget(s, exports, k1, base + k1);
    ExportAllTarget(s, exports, k2, base + k2);
  }
}

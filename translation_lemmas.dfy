/*
 * Properties of the translation rules: the value an expression yields, the
 * shape of the code it emits, the layout of a compiled function's entry
 * block, the naming and aliasing of imports and exports, and the layout of
 * a whole translated module.
 */
module TranslationLemmas {
  import opened WasmAst
  import opened TargetIr
  import opened Translation

  // ---------------------------------------------------------------------
  // Identity of callables

  lemma {:induction false} ImportIdsMember(imports: seq<Import>, id: CallableId)
    ensures id in ImportIds(imports) <==> exists k | 0 <= k < |imports| :: imports[k].callable.id == id
    decreases |imports|
  {
    if imports != [] {
      var n := |imports| - 1;
      ImportIdsMember(imports[..n], id);
      if exists k | 0 <= k < n :: imports[..n][k].callable.id == id {
        var k :| 0 <= k < n && imports[..n][k].callable.id == id;
        assert imports[k].callable.id == id;
      }
      if exists k | 0 <= k < |imports| :: imports[k].callable.id == id {
        var k :| 0 <= k < |imports| && imports[k].callable.id == id;
        if k < n { assert imports[..n][k].callable.id == id; }
      }
    }
  }

  lemma {:induction false} FunctionIdsMember(funcs: seq<Function>, id: CallableId)
    ensures id in FunctionIds(funcs) <==> exists k | 0 <= k < |funcs| :: funcs[k].callable.id == id
    decreases |funcs|
  {
    if funcs != [] {
      var n := |funcs| - 1;
      FunctionIdsMember(funcs[..n], id);
      if exists k | 0 <= k < n :: funcs[..n][k].callable.id == id {
        var k :| 0 <= k < n && funcs[..n][k].callable.id == id;
        assert funcs[k].callable.id == id;
      }
      if exists k | 0 <= k < |funcs| :: funcs[k].callable.id == id {
        var k :| 0 <= k < |funcs| && funcs[k].callable.id == id;
        if k < n { assert funcs[..n][k].callable.id == id; }
      }
    }
  }

  /** A prefix of an ordered function list is ordered. */
  lemma {:induction false} BodiesOrderedPrefix(keys: set<CallableId>, funcs: seq<Function>, n: nat)
    requires n <= |funcs| && BodiesOrdered(keys, funcs)
    ensures BodiesOrdered(keys, funcs[..n])
    decreases |funcs|
  {
    if n < |funcs| {
      var last := |funcs| - 1;
      BodiesOrderedPrefix(keys, funcs[..last], n);
      assert funcs[..last][..n] == funcs[..n];
    } else {
      assert funcs[..n] == funcs;
    }
  }

  // ---------------------------------------------------------------------
  // Types of emitted values

  /** The value an expression yields has the type ExprType predicts. */
  lemma {:induction false} EmitType(e: Expr, env: Env, pos: nat)
    requires EnvOk(env) && CallsIn(e, env.table.Keys)
    ensures TypeOf(Emit(e, env, pos).value) == ExprType(e, env.table, env.rets)
    decreases e
  {
    match e
    case Block(es) =>
      if es != [] {
        var n := |es| - 1;
        var front := EmitAll(es[..n], env, pos);
        EmitType(es[n], env, pos + |front.code|);
      }
    case _ =>
  }

  /** Adding functions after the existing ones leaves every expression's type unchanged. */
  lemma {:induction false} ExprTypeExtend(e: Expr, table: map<CallableId, nat>, rets: seq<TargetType>, more: seq<TargetType>)
    requires TableOk(table, |rets|) && CallsIn(e, table.Keys)
    ensures TableOk(table, |rets + more|)
    ensures ExprType(e, table, rets + more) == ExprType(e, table, rets)
    decreases e
  {
    match e
    case Block(es) =>
      if es != [] {
        ExprTypeExtend(es[|es| - 1], table, rets, more);
      }
    case Call(_, callee, _, _) =>
      assert (rets + more)[table[callee]] == rets[table[callee]];
    case _ =>
  }

  // ---------------------------------------------------------------------
  // Left-to-right emission

  /** Emitting one more expression appends its code and its value. */
  lemma {:induction false} EmitAllSnoc(es: seq<Expr>, env: Env, pos: nat, i: nat)
    requires EnvOk(env) && AllCallsIn(es, env.table.Keys) && i < |es|
    ensures AllCallsIn(es[..i], env.table.Keys) && AllCallsIn(es[..i + 1], env.table.Keys)
    ensures var front := EmitAll(es[..i], env, pos);
            var last := Emit(es[i], env, pos + |front.code|);
            EmitAll(es[..i + 1], env, pos) == EmittedAll(front.code + last.code, front.values + [last.value])
  {
    assert es[..i + 1][..i] == es[..i];
  }

  /** One step of a left-to-right loop over `es` at block `b`: after the code
      of the first i expressions, appending the code of expression i gives the
      code of the first i + 1, and the return types stay put. */
  lemma {:induction false} EmitAllStep(fs0: seq<IrFunction>, b: BlockRef, es: seq<Expr>, env: Env, pos: nat, i: nat)
    requires EnvOk(env) && AllCallsIn(es, env.table.Keys) && i < |es| && BlockExists(fs0, b)
    ensures AllCallsIn(es[..i], env.table.Keys) && AllCallsIn(es[..i + 1], env.table.Keys)
    ensures var front := EmitAll(es[..i], env, pos);
            var last := Emit(es[i], env, pos + |front.code|);
            var next := EmitAll(es[..i + 1], env, pos);
            AppendAt(AppendAt(fs0, b, front.code), b, last.code) == AppendAt(fs0, b, next.code) &&
            RetTypes(AppendAt(fs0, b, next.code)) == RetTypes(fs0) &&
            |next.code| == |front.code| + |last.code| &&
            next.values == front.values + [last.value]
  {
    EmitAllSnoc(es, env, pos, i);
    var front := EmitAll(es[..i], env, pos);
    var last := Emit(es[i], env, pos + |front.code|);
    AppendAtTwice(fs0, b, front.code, last.code);
    AppendAtRetTypes(fs0, b, front.code + last.code);
  }

  /** emplace never replaces an entry: a registered id keeps its function,
      and an unregistered one gets the new index. */
  lemma {:induction false} EmplaceKeeps(table: map<CallableId, nat>, id: CallableId, n: nat, x: CallableId)
    ensures x in table ==> x in Emplace(table, id, n) && Emplace(table, id, n)[x] == table[x]
    ensures x == id && id !in table ==> Emplace(table, id, n)[x] == n
  {
  }

  /** Appending at the entry block of the last function, when that is its only block. */
  lemma {:induction false} AppendAtEntry(fs: seq<IrFunction>, decl: IrFunction, code: seq<Instr>, more: seq<Instr>)
    ensures BlockExists(fs + [WithEntry(decl, code)], BlockRef(|fs|, 0))
    ensures AppendAt(fs + [WithEntry(decl, code)], BlockRef(|fs|, 0), more) == fs + [WithEntry(decl, code + more)]
  {
    var g := WithEntry(decl, code);
    assert (fs + [g])[|fs|] == g;
    assert g.blocks[0 := g.blocks[0].(instrs := g.blocks[0].instrs + more)] == [BasicBlock("entry", code + more)];
    assert (fs + [g])[|fs| := WithEntry(decl, code + more)] == fs + [WithEntry(decl, code + more)];
  }

  /** CompileStep in terms of the environment its entry block is emitted in. */
  lemma {:induction false} CompileStepEntry(s: State, f: Function, env: Env)
    requires StateOk(s) && AllCallsIn(f.body, s.table.Keys + {f.callable.id})
    requires env == Env(Emplace(s.table, f.callable.id, |s.functions|),
                        RetTypes(s.functions) + [Declaration(f.callable, Internal).retType], BlockRef(|s.functions|, 0))
    ensures EnvOk(env) && AllCallsIn(f.body, env.table.Keys)
    ensures CompileStep(s, f) == State(s.functions + [WithEntry(Declaration(f.callable, Internal), EntryCode(f, env))],
                                       s.aliases, env.table)
  {
    assert env.table.Keys == s.table.Keys + {f.callable.id};
  }

  /** The state VisitAssertEq's Invoke leaves behind: the AssertEq wrapper's
      entry block still empty, the Invoke function right after it, and the
      return types of both at the end. */
  lemma {:induction false} AssertEqLayout(s: State, inv: Invoke)
    requires StateOk(s) && inv.callee.target.callable.id in s.table && AllCallsIn(inv.args, s.table.Keys)
    ensures var s2 := AssertEqInvoked(s, inv);
            var n := |s.functions|;
            |s2.functions| == n + 2 && s2.table == s.table && s2.aliases == s.aliases &&
            BlockExists(s2.functions, BlockRef(n, 0)) && Instrs(s2.functions, BlockRef(n, 0)) == [] &&
            s2.functions[n + 1].retType == MapType(inv.callee.target.callable.resultType) &&
            RetTypes(s2.functions) == RetTypes(s.functions) + [VoidTy, MapType(inv.callee.target.callable.resultType)]
  {
    var n := |s.functions|;
    var s1 := State(s.functions + [Wrapper("AssertEq", VoidTy)], s.aliases, s.table);
    var t := MapType(inv.callee.target.callable.resultType);
    var fs := s1.functions + [Wrapper("Invoke", t)];
    var env := Env(s.table, RetTypes(fs), BlockRef(n + 1, 0));
    var call := Emit(Call(false, inv.callee.target.callable.id, inv.callee.target.indexInModule, inv.args), env, 0);
    AppendAtFrame(fs, BlockRef(n + 1, 0), call.code + [Ret(call.value)]);
    AppendAtRetTypes(fs, BlockRef(n + 1, 0), call.code + [Ret(call.value)]);
    RetTypesAppend(s.functions, Wrapper("AssertEq", VoidTy));
    RetTypesAppend(s1.functions, Wrapper("Invoke", t));
    assert fs[n] == Wrapper("AssertEq", VoidTy);
  }

  /** AssertEqStep spelled out: what is appended to the AssertEq block. */
  lemma {:induction false} AssertEqStepIs(s: State, inv: Invoke, expected: Expr)
    requires StateOk(s) && inv.callee.target.callable.id in s.table
    requires AllCallsIn(inv.args, s.table.Keys) && CallsIn(expected, s.table.Keys)
    requires AssertEqTypesOk(s, inv, expected)
    ensures var s2 := AssertEqInvoked(s, inv);
            var at := BlockRef(|s.functions|, 0);
            var t := MapType(inv.callee.target.callable.resultType);
            var want := Emit(expected, Env(s.table, RetTypes(s2.functions), at), 1);
            BlockExists(s2.functions, at) &&
            AssertEqStep(s, inv, expected) ==
              State(AppendAt(s2.functions, at, [CallInstr(|s.functions| + 1, [])] +
                                               (want.code + [CompareEq(t, Inst(t, at, 0), want.value), RetVoid])),
                    s.aliases, s.table)
  {
    AssertEqLayout(s, inv);
    var s2 := AssertEqInvoked(s, inv);
    var at := BlockRef(|s.functions|, 0);
    var t := MapType(inv.callee.target.callable.resultType);
    var want := Emit(expected, Env(s.table, RetTypes(s2.functions), at), 1);
    var c := [CallInstr(|s.functions| + 1, [])];
    assert c + want.code + [CompareEq(t, Inst(t, at, 0), want.value), RetVoid]
        == c + (want.code + [CompareEq(t, Inst(t, at, 0), want.value), RetVoid]);
  }

  // ---------------------------------------------------------------------
  // The three loops of VisitModule, one step at a time

  lemma {:induction false} ImportAllStep(s: State, imports: seq<Import>, i: nat)
    requires StateOk(s) && i < |imports|
    ensures ImportAll(s, imports[..i + 1]) == ImportStep(ImportAll(s, imports[..i]), imports[i])
  {
    assert imports[..i + 1][..i] == imports[..i];
  }

  /** With fresh, distinct ids, the next import is not registered yet. */
  lemma {:induction false} ImportFresh(keys: set<CallableId>, m: Module, i: nat)
    requires FreshIds(keys, m) && i < |m.imports|
    ensures m.imports[i].callable.id !in keys + ImportIds(m.imports[..i])
  {
    ImportIdsMember(m.imports[..i], m.imports[i].callable.id);
  }

  lemma {:induction false} CompileAllStep(s: State, funcs: seq<Function>, j: nat)
    requires StateOk(s) && BodiesOrdered(s.table.Keys, funcs) && j < |funcs|
    ensures BodiesOrdered(s.table.Keys, funcs[..j]) && BodiesOrdered(s.table.Keys, funcs[..j + 1])
    ensures AllCallsIn(funcs[j].body, CompileAll(s, funcs[..j]).table.Keys + {funcs[j].callable.id})
    ensures CompileAll(s, funcs[..j + 1]) == CompileStep(CompileAll(s, funcs[..j]), funcs[j])
  {
    BodiesOrderedPrefix(s.table.Keys, funcs, j);
    BodiesOrderedPrefix(s.table.Keys, funcs, j + 1);
    var next := funcs[..j + 1];
    assert next[..j] == funcs[..j] && next[j] == funcs[j] && |next| == j + 1;
  }

  /** With fresh, distinct ids, the next function is registered neither as an
      import nor as an earlier function. */
  lemma {:induction false} FunctionFresh(keys: set<CallableId>, m: Module, j: nat)
    requires FreshIds(keys, m) && j < |m.functions|
    ensures m.functions[j].callable.id !in keys + ImportIds(m.imports) + FunctionIds(m.functions[..j])
  {
    ImportIdsMember(m.imports, m.functions[j].callable.id);
    FunctionIdsMember(m.functions[..j], m.functions[j].callable.id);
  }

  /** Everything VisitModule's function loop needs before compiling the j-th function. */
  lemma {:induction false} FunctionLoopStep(s: State, funcs: seq<Function>, j: nat)
    requires StateOk(s) && BodiesOrdered(s.table.Keys, funcs) && BodiesNonEmpty(funcs) && j < |funcs|
    ensures BodiesOrdered(s.table.Keys, funcs[..j]) && BodiesOrdered(s.table.Keys, funcs[..j + 1])
    ensures |CompileAll(s, funcs[..j]).functions| == |s.functions| + j
    ensures AllCallsIn(funcs[j].body, CompileAll(s, funcs[..j]).table.Keys + {funcs[j].callable.id})
    ensures funcs[j].callable.resultType != Void ==> |funcs[j].body| > 0
    ensures CompileAll(s, funcs[..j + 1]) == CompileStep(CompileAll(s, funcs[..j]), funcs[j])
  {
    CompileAllStep(s, funcs, j);
  }

  lemma {:induction false} ExportAllStep(s: State, exports: seq<Export>, k: nat)
    requires ExportsRegistered(s.table.Keys, exports) && k < |exports|
    ensures ExportsRegistered(s.table.Keys, exports[..k]) && ExportsRegistered(s.table.Keys, exports[..k + 1])
    ensures ExportAll(s, exports[..k + 1]) == ExportStep(ExportAll(s, exports[..k]), exports[k])
  {
    assert exports[..k + 1][..k] == exports[..k];
  }
}

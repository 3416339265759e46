/*
 * Properties of the test-harness wrappers built by VisitInvoke and
 * VisitAssertEq, and the worked examples of the function-body rules.
 */
module HarnessProperties {
  import opened WasmAst
  import opened TargetIr
  import opened Translation
  import opened TranslationLemmas
  import opened EmissionProperties

  /** VisitInvoke adds exactly one function, after the existing ones, which
      are unchanged: "Invoke", external, no parameters, returning the
      callee's mapped result type, with one block that evaluates the
      arguments, calls the callee's registered function with their values and
      returns the call's value. */
  lemma {:induction false} InvokeShape(s: State, callee: Export, args: seq<Expr>)
    requires StateOk(s) && callee.target.callable.id in s.table && AllCallsIn(args, s.table.Keys)
    ensures var n := |s.functions|;
            var r := InvokeStep(s, callee, args);
            var t := MapType(callee.target.callable.resultType);
            var at := BlockRef(n, 0);
            var g := s.table[callee.target.callable.id];
            var argCode := EmitAll(args, Env(s.table, RetTypes(s.functions) + [t], at), 0);
            |r.functions| == n + 1 && r.functions[..n] == s.functions &&
            r.aliases == s.aliases && r.table == s.table &&
            r.functions[n] == WithEntry(Wrapper("Invoke", t),
              argCode.code + [CallInstr(g, argCode.values), Ret(Inst(s.functions[g].retType, at, |argCode.code|))])
  {
    var n := |s.functions|;
    var t := MapType(callee.target.callable.resultType);
    var at := BlockRef(n, 0);
    var g := s.table[callee.target.callable.id];
    var fs := s.functions + [Wrapper("Invoke", t)];
    RetTypesAppend(s.functions, Wrapper("Invoke", t));
    RetTypesAt(s.functions, g);
    var env := Env(s.table, RetTypes(fs), at);
    var call := Emit(Call(false, callee.target.callable.id, callee.target.indexInModule, args), env, 0);
    var argCode := EmitAll(args, env, 0);
    assert call.code + [Ret(call.value)] ==
      argCode.code + [CallInstr(g, argCode.values), Ret(Inst(s.functions[g].retType, at, |argCode.code|))];
    AppendAtFrame(fs, at, call.code + [Ret(call.value)]);
    var r := AppendAt(fs, at, call.code + [Ret(call.value)]);
    assert [] + (call.code + [Ret(call.value)]) == call.code + [Ret(call.value)];
    assert r[n].blocks == [BasicBlock("entry", call.code + [Ret(call.value)])];
    assert r[..n] == s.functions by {
      forall i | 0 <= i < n ensures r[i] == s.functions[i] {
        assert r[i] == fs[i];
      }
    }
  }

  /** The AssertEq wrapper VisitAssertEq adds: "AssertEq", external, void,
      no parameters, one block that calls the Invoke function added right
      after it, evaluates the expected expression, compares the call's value
      with the expected value (integer equality for integer types, ordered
      floating-point equality for float) and returns void. Nothing before it
      changes. */
  lemma {:induction false} AssertEqShape(s: State, inv: Invoke, expected: Expr)
    requires StateOk(s) && inv.callee.target.callable.id in s.table
    requires AllCallsIn(inv.args, s.table.Keys) && CallsIn(expected, s.table.Keys)
    requires AssertEqTypesOk(s, inv, expected)
    ensures var n := |s.functions|;
            var r := AssertEqStep(s, inv, expected);
            var at := BlockRef(n, 0);
            var t := MapType(inv.callee.target.callable.resultType);
            var want := Emit(expected, Env(s.table, RetTypes(s.functions) + [VoidTy, t], at), 1);
            |r.functions| == n + 2 && r.functions[..n] == s.functions &&
            r.aliases == s.aliases && r.table == s.table &&
            r.functions[n] == WithEntry(Wrapper("AssertEq", VoidTy),
              [CallInstr(n + 1, [])] + want.code + [CompareEq(t, Inst(t, at, 0), want.value), RetVoid]) &&
            r.functions[n + 1].name == "Invoke" && r.functions[n + 1].retType == t
  {
    var n := |s.functions|;
    var at := BlockRef(n, 0);
    var t := MapType(inv.callee.target.callable.resultType);
    AssertEqLayout(s, inv);
    AssertEqStepIs(s, inv, expected);
    var s1 := State(s.functions + [Wrapper("AssertEq", VoidTy)], s.aliases, s.table);
    InvokeShape(s1, inv.callee, inv.args);
    var s2 := AssertEqInvoked(s, inv);
    var want := Emit(expected, Env(s.table, RetTypes(s2.functions), at), 1);
    var tail := [CallInstr(n + 1, [])] + (want.code + [CompareEq(t, Inst(t, at, 0), want.value), RetVoid]);
    assert s2.functions[..n] == s1.functions[..n] == s.functions;
    AppendAtWrapper(s2.functions, n, Wrapper("AssertEq", VoidTy), tail);
    AppendAtFrame(s2.functions, at, tail);
    assert tail == [CallInstr(n + 1, [])] + want.code + [CompareEq(t, Inst(t, at, 0), want.value), RetVoid];
  }

  /** Appending to the empty entry block of a wrapper gives the wrapper with
      that code as its entry, and changes no function before it. */
  lemma {:induction false} AppendAtWrapper(fs: seq<IrFunction>, n: nat, decl: IrFunction, code: seq<Instr>)
    requires n < |fs| && fs[n] == decl && decl.blocks == [BasicBlock("entry", [])]
    ensures BlockExists(fs, BlockRef(n, 0))
    ensures AppendAt(fs, BlockRef(n, 0), code)[..n] == fs[..n]
    ensures AppendAt(fs, BlockRef(n, 0), code)[n] == WithEntry(decl, code)
  {
    assert [] + code == code;
  }

  /** The value at position `p` of block `at` is an operand of no instruction of `code`. */
  predicate UnusedIn(code: seq<Instr>, at: BlockRef, p: nat)
  {
    forall k, o | 0 <= k < |code| && o in Operands(code[k]) :: !(o.Inst? && o.at == at && o.pos == p)
  }

  /** In a block laid out as VisitAssertEq lays it out, the comparison's
      value is used by no instruction, as long as the expected expression's
      code only uses values defined after the call. */
  lemma {:induction false} ComparisonUnusedInLayout(call: Instr, want: Emitted, t: TargetType, at: BlockRef)
    requires Operands(call) == []
    requires DefinedBeforeUse(want.code, at, 1, 1) && InRange(want.value, at, 1, 1 + |want.code|)
    ensures UnusedIn([call] + want.code + [CompareEq(t, Inst(t, at, 0), want.value), RetVoid], at, 1 + |want.code|)
  {
    var code := [call] + want.code + [CompareEq(t, Inst(t, at, 0), want.value), RetVoid];
    forall k, o | 0 <= k < |code| && o in Operands(code[k])
      ensures !(o.Inst? && o.at == at && o.pos == 1 + |want.code|)
    {
      if 1 <= k < 1 + |want.code| {
        assert code[k] == want.code[k - 1];
      }
    }
  }

  /** No instruction of the AssertEq block uses the comparison's value: the
      outcome of the comparison has no effect on the code. */
  lemma {:induction false} AssertEqComparisonUnused(s: State, inv: Invoke, expected: Expr)
    requires StateOk(s) && inv.callee.target.callable.id in s.table
    requires AllCallsIn(inv.args, s.table.Keys) && CallsIn(expected, s.table.Keys)
    requires AssertEqTypesOk(s, inv, expected)
    ensures var at := BlockRef(|s.functions|, 0);
            var fs := AssertEqStep(s, inv, expected).functions;
            BlockExists(fs, at) &&
            var code := Instrs(fs, at);
            |code| >= 3 && (code[|code| - 2].ICmpEq? || code[|code| - 2].FCmpOEq?) &&
            UnusedIn(code, at, |code| - 2)
  {
    var n := |s.functions|;
    var at := BlockRef(n, 0);
    var t := MapType(inv.callee.target.callable.resultType);
    AssertEqShape(s, inv, expected);
    var env := Env(s.table, RetTypes(s.functions) + [VoidTy, t], at);
    var want := Emit(expected, env, 1);
    EmitDefinedBeforeUse(expected, env, 1);
    ComparisonUnusedInLayout(CallInstr(n + 1, []), want, t, at);
  }

  /** The worked AssertEq example: an Invoke of an i32 function checked
      against the constant 41 builds the comparison with 41 and returns
      without any branch, whatever the call returns. */
  lemma {:induction false} AssertEqI32Example(s: State, inv: Invoke)
    requires StateOk(s) && inv.callee.target.callable.id in s.table && AllCallsIn(inv.args, s.table.Keys)
    requires inv.callee.target.callable.resultType == I32
    ensures AssertEqTypesOk(s, inv, Const(I32Lit(41)))
    ensures var n := |s.functions|;
            Instrs(AssertEqStep(s, inv, Const(I32Lit(41))).functions, BlockRef(n, 0)) ==
              [CallInstr(n + 1, []), ICmpEq(Inst(Int32Ty, BlockRef(n, 0), 0), ConstInt(Int32Ty, 41)), RetVoid]
  {
    var n := |s.functions|;
    AssertEqLayout(s, inv);
    AssertEqStepIs(s, inv, Const(I32Lit(41)));
    var s2 := AssertEqInvoked(s, inv);
    AppendAtFrame(s2.functions, BlockRef(n, 0), [CallInstr(n + 1, [])] + ([] + [ICmpEq(Inst(Int32Ty, BlockRef(n, 0), 0), ConstInt(Int32Ty, 41)), RetVoid]));
  }

  // ---------------------------------------------------------------------
  // Worked examples of VisitFunction

  /** A function of result type i32 whose body is the constant 5 and has no
      explicit return compiles to a single block returning 5. */
  lemma {:induction false} ReturnsConstantFive(s: State, c: Callable)
    requires StateOk(s) && c.resultType == I32
    ensures var f := Function(c, [], [Const(I32Lit(5))], 0);
            CompileStep(s, f).functions[|s.functions|].blocks == [BasicBlock("entry", [Ret(ConstInt(Int32Ty, 5))])]
  {
    var f := Function(c, [], [Const(I32Lit(5))], 0);
    var n := |s.functions|;
    var env := Env(Emplace(s.table, c.id, n), RetTypes(s.functions) + [Declaration(c, Internal).retType], BlockRef(n, 0));
    CompileStepEntry(s, f, env);
    assert f.body[..0] == [];
    assert ConstValue(I32Lit(5)) == ConstInt(Int32Ty, 5);
    assert EmitAll(f.body, env, 0) == EmittedAll([], [ConstInt(Int32Ty, 5)]);
    assert EntryCode(f, env) == [Ret(ConstInt(Int32Ty, 5))];
  }

  /** A void function with an empty body compiles to a single block whose
      only instruction is `ret void`. */
  lemma {:induction false} EmptyVoidFunction(s: State, c: Callable, locals: seq<Variable>)
    requires StateOk(s) && c.resultType == Void
    ensures var f := Function(c, locals, [], 0);
            CompileStep(s, f).functions[|s.functions|].blocks == [BasicBlock("entry", Allocas(locals) + [RetVoid])]
  {
    var f := Function(c, locals, [], 0);
    var n := |s.functions|;
    var env := Env(Emplace(s.table, c.id, n), RetTypes(s.functions) + [Declaration(c, Internal).retType], BlockRef(n, 0));
    CompileStepEntry(s, f, env);
    ImplicitReturn(f, env);
    assert Allocas(locals) + [] + [RetVoid] == Allocas(locals) + [RetVoid];
  }
}

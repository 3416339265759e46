/*
 * WAOTVisitor: the single-pass translator of src/waot_visitor.cc. It holds
 * the target module, the identity-keyed symbol table and the cursor (the
 * current function and the current block), and each Visit* method appends
 * to the module exactly what the matching step of module Translation says.
 */
module Visitor {
  import opened WasmAst
  import opened TargetIr
  import opened Translation
  import opened TranslationLemmas

  class WaotVisitor {
    /** module_: the target module (null when none was supplied). */
    const irModule: IrModule?
    /** functions_: the compiled function of each registered callable. */
    var functionTable: map<CallableId, nat>
    /** current_func_ */
    var currentFunction: Option<nat>
    /** current_bb_ */
    var currentBlock: Option<BlockRef>

    constructor (m: IrModule?)
      ensures m != null ==> Valid()
      ensures irModule == m && functionTable == map[]
      ensures currentFunction == None && currentBlock == None
    {
      irModule := m;
      functionTable := map[];
      currentFunction := None;
      currentBlock := None;
    }

    /** A target module is present, the table points at its functions and
        the cursor at one of its blocks. */
    ghost predicate Valid()
      reads this, irModule
    {
      irModule != null &&
      TableOk(functionTable, |irModule.functions|) &&
      (currentFunction.Some? ==> currentFunction.value < |irModule.functions|) &&
      (currentBlock.Some? ==> BlockExists(irModule.functions, currentBlock.value))
    }

    /** The translator state that module Translation speaks about. */
    ghost function Snapshot(): (s: State)
      reads this, irModule
      requires Valid()
      ensures StateOk(s)
    {
      State(irModule.functions, irModule.aliases, functionTable)
    }

    /** What emission at the cursor reads. */
    ghost function EmitEnv(): (env: Env)
      reads this, irModule
      requires Valid() && currentBlock.Some?
      ensures EnvOk(env)
    {
      Env(functionTable, RetTypes(irModule.functions), currentBlock.value)
    }

    /** The number of instructions already in the current block. */
    ghost function Pos(): nat
      reads this, irModule
      requires Valid() && currentBlock.Some?
    {
      |Instrs(irModule.functions, currentBlock.value)|
    }

    /** The table, the cursor and the aliases are as they were. */
    twostate predicate Kept()
      reads this, irModule
    {
      functionTable == old(functionTable) && currentFunction == old(currentFunction) &&
      currentBlock == old(currentBlock) && irModule != null && irModule.aliases == old(irModule.aliases)
    }

    /** VisitModule: every import, then every function, then every export,
        each in order; returns the target module. The cursor is left on the
        entry block of the last compiled function, if there is one. */
    method VisitModule(m: Module) returns (r: IrModule)
      requires Valid()
      requires ModuleReady(functionTable.Keys, m)
      requires BodiesNonEmpty(m.functions)
      modifies this, irModule
      ensures r == irModule && Valid()
      ensures Snapshot() == Translate(old(Snapshot()), m)
      ensures m.functions == [] ==> currentFunction == old(currentFunction) && currentBlock == old(currentBlock)
      ensures |irModule.functions| == |old(irModule.functions)| + |m.imports| + |m.functions|
      ensures m.functions != [] ==> OnLastEntry()
    {
      VisitImports(m.imports);
      VisitFunctions(m.functions);
      VisitExports(m.exports);
      r := irModule;
    }

    /** VisitModule's import loop. */
    method VisitImports(imports: seq<Import>)
      requires Valid()
      modifies this`functionTable, irModule
      ensures Valid() && Snapshot() == ImportAll(old(Snapshot()), imports)
    {
      ghost var s0 := Snapshot();
      var i := 0;
      while i < |imports|
        invariant 0 <= i <= |imports|
        invariant Valid() && Snapshot() == ImportAll(s0, imports[..i])
      {
        ImportAllStep(s0, imports, i);
        VisitImport(imports[i]);
        i := i + 1;
      }
      assert imports[..|imports|] == imports;
    }

    /** VisitModule's function loop. The cursor is left on the entry block
        of the last function, if there is one. */
    method VisitFunctions(funcs: seq<Function>)
      requires Valid() && BodiesOrdered(functionTable.Keys, funcs) && BodiesNonEmpty(funcs)
      modifies this, irModule
      ensures Valid() && Snapshot() == CompileAll(old(Snapshot()), funcs)
      ensures funcs == [] ==> currentFunction == old(currentFunction) && currentBlock == old(currentBlock)
      ensures |irModule.functions| == |old(irModule.functions)| + |funcs|
      ensures funcs != [] ==> OnLastEntry()
    {
      ghost var s0 := Snapshot();
      if funcs == [] {
        return;
      }
      var i := 0;
      while i < |funcs|
        invariant 0 <= i <= |funcs|
        invariant BodiesOrdered(s0.table.Keys, funcs[..i])
        invariant Valid() && Snapshot() == CompileAll(s0, funcs[..i])
        invariant i > 0 ==> OnLastEntry()
      {
        VisitNthFunction(s0, funcs, i);
        i := i + 1;
      }
      assert funcs[..|funcs|] == funcs;
    }

    /** One turn of VisitFunctions' loop: compiles `funcs[i]` after the
        `i` functions before it. */
    method VisitNthFunction(ghost s0: State, funcs: seq<Function>, i: nat)
      requires StateOk(s0) && BodiesOrdered(s0.table.Keys, funcs) && BodiesNonEmpty(funcs) && i < |funcs|
      requires BodiesOrdered(s0.table.Keys, funcs[..i])
      requires Valid() && Snapshot() == CompileAll(s0, funcs[..i])
      modifies this, irModule
      ensures BodiesOrdered(s0.table.Keys, funcs[..i + 1])
      ensures Valid() && Snapshot() == CompileAll(s0, funcs[..i + 1])
      ensures OnLastEntry()
    {
      FunctionLoopStep(s0, funcs, i);
      VisitFunction(funcs[i]);
    }

    /** The cursor is on the entry block of the last function. */
    ghost predicate OnLastEntry()
      reads this, irModule
    {
      irModule != null && |irModule.functions| > 0 && OnEntryOf(|irModule.functions| - 1)
    }

    /** The cursor is on the entry block of function `f`. */
    ghost predicate OnEntryOf(f: nat)
      reads this
    {
      currentFunction == Some(f) && currentBlock == Some(BlockRef(f, 0))
    }

    /** VisitModule's export loop. */
    method VisitExports(exports: seq<Export>)
      requires Valid() && ExportsRegistered(functionTable.Keys, exports)
      modifies irModule
      ensures Valid() && Snapshot() == ExportAll(old(Snapshot()), exports)
      ensures irModule.functions == old(irModule.functions)
      ensures old(OnLastEntry()) ==> OnLastEntry()
    {
      ghost var s0 := Snapshot();
      var i := 0;
      while i < |exports|
        invariant 0 <= i <= |exports|
        invariant ExportsRegistered(s0.table.Keys, exports[..i])
        invariant Valid() && Snapshot() == ExportAll(s0, exports[..i])
      {
        ExportAllStep(s0, exports, i);
        VisitExport(exports[i]);
        i := i + 1;
      }
      assert exports[..|exports|] == exports;
    }

    /** GetFunction: declares a function for `c` with the given linkage and
        registers it under c's identity. */
    method GetFunction(c: Callable, linkage: Linkage) returns (f: nat)
      requires Valid()
      modifies this`functionTable, irModule
      ensures Valid()
      ensures f == |old(irModule.functions)|
      ensures irModule.functions == old(irModule.functions) + [Declaration(c, linkage)]
      ensures functionTable == Emplace(old(functionTable), c.id, f)
      ensures currentFunction == old(currentFunction) && currentBlock == old(currentBlock)
      ensures irModule.aliases == old(irModule.aliases)
    {
      var retType := VoidTy;
      if c.resultType != Void {
        retType := MapType(c.resultType);
      }
      var argTypes: seq<TargetType> := [];
      var i := 0;
      while i < |c.args|
        invariant 0 <= i <= |c.args| && |argTypes| == i
        invariant forall k | 0 <= k < i :: argTypes[k] == MapType(c.args[k].ty)
      {
        argTypes := argTypes + [MapType(c.args[i].ty)];
        i := i + 1;
      }
      var unnamed := seq(|argTypes|, k requires 0 <= k < |argTypes| => Param(argTypes[k], None));
      ghost var fs0 := irModule.functions;
      f := irModule.AddFunction(IrFunction(c.localName, linkage, retType, unnamed, []));
      i := 0;
      while i < |c.args|
        invariant 0 <= i <= |c.args|
        invariant |irModule.functions| == |fs0| + 1 && irModule.functions[..f] == fs0
        invariant irModule.functions[f] == IrFunction(c.localName, linkage, retType,
                    seq(|c.args|, k requires 0 <= k < |c.args| =>
                      Param(MapType(c.args[k].ty), if k < i then ParamName(c.args[k]) else None)), [])
        invariant irModule.aliases == old(irModule.aliases)
        modifies irModule
      {
        if c.args[i].name != "" {
          irModule.SetParamName(f, i, c.args[i].name);
        }
        i := i + 1;
      }
      assert irModule.functions == old(irModule.functions) + [Declaration(c, linkage)] by {
        ghost var decl := Declaration(c, linkage);
        assert irModule.functions[f].params == decl.params;
        assert irModule.functions[f] == decl;
        assert irModule.functions == irModule.functions[..f] + [irModule.functions[f]];
      }
      if c.id !in functionTable {
        functionTable := functionTable[c.id := f];
      }
    }

    /** VisitFunction's alloca loop: an IR builder at the end of block `b`
        creates one alloca per local, in order. */
    method EmitAllocas(b: BlockRef, locals: seq<Variable>)
      requires irModule != null && BlockExists(irModule.functions, b)
      modifies irModule
      ensures irModule.functions == AppendAt(old(irModule.functions), b, Allocas(locals))
      ensures irModule.aliases == old(irModule.aliases)
    {
      ghost var fs0 := irModule.functions;
      AppendAtNothing(fs0, b);
      var i := 0;
      while i < |locals|
        invariant 0 <= i <= |locals|
        invariant irModule.functions == AppendAt(fs0, b, Allocas(locals[..i]))
        invariant irModule.aliases == old(irModule.aliases)
      {
        irModule.Append(b, Alloca(MapType(locals[i].ty), locals[i].name));
        AppendAtTwice(fs0, b, Allocas(locals[..i]), [Alloca(MapType(locals[i].ty), locals[i].name)]);
        assert locals[..i + 1][..i] == locals[..i];
        i := i + 1;
      }
      assert locals[..|locals|] == locals;
    }

    /** The first half of VisitFunction: declares `func` with internal
        linkage, gives it an "entry" block holding the allocas of its locals,
        and moves the cursor there. */
    method BeginFunction(func: Function) returns (f: nat)
      requires Valid()
      modifies this, irModule
      ensures Valid() && f == |old(irModule.functions)|
      ensures irModule.functions == old(irModule.functions) +
                [WithEntry(Declaration(func.callable, Internal), Allocas(func.locals))]
      ensures irModule.aliases == old(irModule.aliases)
      ensures functionTable == Emplace(old(functionTable), func.callable.id, f)
      ensures currentFunction == Some(f) && currentBlock == Some(BlockRef(f, 0))
    {
      ghost var fs0 := irModule.functions;
      f := GetFunction(func.callable, Internal);
      assert irModule.functions[..f] == fs0;
      AddEntry(f, func.locals);
      currentFunction := Some(f);
      currentBlock := Some(BlockRef(f, 0));
    }

    /** Creates the "entry" block of the function just declared at index `f`
        and fills it with the allocas of `locals`. */
    method AddEntry(f: nat, locals: seq<Variable>)
      requires irModule != null && f + 1 == |irModule.functions| && irModule.functions[f].blocks == []
      modifies irModule
      ensures irModule.functions == old(irModule.functions[..f]) + [WithEntry(old(irModule.functions[f]), Allocas(locals))]
      ensures irModule.aliases == old(irModule.aliases)
    {
      ghost var fs0 := irModule.functions[..f];
      ghost var decl := irModule.functions[f];
      assert irModule.functions == fs0 + [decl];
      irModule.AddBlock(f, "entry");
      assert irModule.functions == fs0 + [WithEntry(decl, [])] by {
        assert [] + [BasicBlock("entry", [])] == [BasicBlock("entry", [])];
        assert irModule.functions == (fs0 + [decl])[f := WithEntry(decl, [])];
      }
      AppendAtEntry(fs0, decl, [], Allocas(locals));
      EmitAllocas(BlockRef(f, 0), locals);
      assert [] + Allocas(locals) == Allocas(locals);
    }

    /** VisitFunction: declares the function with internal linkage, gives it
        an "entry" block holding the allocas of the locals and the code of the
        body in order, and ends that block with the implicit return unless it
        already ends with a terminator. The cursor is left at the new block. */
    method VisitFunction(func: Function)
      requires Valid()
      requires AllCallsIn(func.body, functionTable.Keys + {func.callable.id})
      requires func.callable.resultType != Void ==> |func.body| > 0
      modifies this, irModule
      ensures Valid()
      ensures Snapshot() == CompileStep(old(Snapshot()), func)
      ensures |irModule.functions| == |old(irModule.functions)| + 1
      ensures OnEntryOf(|old(irModule.functions)|) && OnLastEntry()
    {
      ghost var s0 := Snapshot();
      ghost var decl := Declaration(func.callable, Internal);
      ghost var allocas := Allocas(func.locals);
      var f := BeginFunction(func);
      var bb := BlockRef(f, 0);
      ghost var env := EmitEnv();
      ghost var fsA := irModule.functions;
      RetTypesAppend(s0.functions, WithEntry(decl, allocas));
      CompileStepEntry(s0, func, env);
      var lastValue := VisitBlock(func.body);
      ghost var body := EmitAll(func.body, env, |allocas|);
      AppendAtEntry(s0.functions, decl, allocas, body.code);
      ghost var block := allocas + body.code;
      ghost var code := EntryCode(func, env);
      assert Instrs(irModule.functions, bb) == block;
      if !HasTerminator(Instrs(irModule.functions, bb)) {
        if func.callable.resultType == Void {
          assert code == block + [RetVoid];
          AppendAtEntry(s0.functions, decl, block, [RetVoid]);
          irModule.Append(bb, RetVoid);
        } else {
          assert |func.body| > 0;
          assert code == block + [Ret(lastValue)];
          AppendAtEntry(s0.functions, decl, block, [Ret(lastValue)]);
          irModule.Append(bb, Ret(lastValue));
        }
      } else {
        assert code == block;
      }
      assert irModule.functions == s0.functions + [WithEntry(decl, code)];
    }

    /** VisitImport: declares the import with external linkage and renames
        it to its mangled module-qualified symbol. */
    method VisitImport(imp: Import)
      requires Valid()
      modifies this`functionTable, irModule
      ensures Valid() && Snapshot() == ImportStep(old(Snapshot()), imp)
    {
      var f := GetFunction(imp.callable, External);
      irModule.SetFunctionName(f, Mangle(imp.moduleName, imp.funcName));
    }

    /** VisitExport: an externally linked alias, named by the mangled export
        name, of the exported function's registered function. */
    method VisitExport(x: Export)
      requires Valid() && x.target.callable.id in functionTable
      modifies irModule
      ensures Valid() && Snapshot() == ExportStep(old(Snapshot()), x)
    {
      irModule.AddAlias(Alias(Mangle(x.moduleName, x.name), External, functionTable[x.target.callable.id]));
    }

    /** VisitInvoke: a fresh zero-argument function "Invoke" returning the
        callee's result type, whose entry block calls the callee with the
        arguments and returns the call's value. The current function is left
        at the new function and the current block is put back. */
    method VisitInvoke(callee: Export, args: seq<Expr>) returns (v: Value)
      requires Valid() && callee.target.callable.id in functionTable && AllCallsIn(args, functionTable.Keys)
      modifies this, irModule
      ensures Valid() && Snapshot() == InvokeStep(old(Snapshot()), callee, args)
      ensures currentFunction == Some(|old(irModule.functions)|) && currentBlock == old(currentBlock)
      ensures v == FunctionAddr(|old(irModule.functions)|)
    {
      ghost var s0 := Snapshot();
      var retType := MapType(callee.target.callable.resultType);
      var f := irModule.AddFunction(IrFunction("Invoke", External, retType, [], []));
      irModule.AddBlock(f, "entry");
      var bb := BlockRef(f, 0);
      ghost var fs := s0.functions + [Wrapper("Invoke", retType)];
      assert [] + [BasicBlock("entry", [])] == [BasicBlock("entry", [])];
      assert irModule.functions == fs;
      currentFunction := Some(f);
      var lastBlock := currentBlock;
      currentBlock := Some(bb);
      assert EmitEnv() == Env(s0.table, RetTypes(fs), bb) && Pos() == 0;
      ghost var call := Emit(Call(false, callee.target.callable.id, callee.target.indexInModule, args),
                             EmitEnv(), 0);
      var result := VisitCall(false, callee.target.callable.id, callee.target.indexInModule, args);
      irModule.Append(bb, Ret(result));
      AppendAtTwice(fs, bb, call.code, [Ret(result)]);
      AppendAtFrame(fs, bb, call.code + [Ret(result)]);
      currentBlock := lastBlock;
      v := FunctionAddr(f);
    }

    /** The first half of VisitAssertEq: a fresh zero-argument void function
        "AssertEq" with an "entry" block, made current; the Invoke function
        for `inv`; and, on the AssertEq block, a call of it with no arguments,
        whose value is `result`. */
    method BeginAssertEq(inv: Invoke) returns (bb: BlockRef, result: Value)
      requires Valid() && inv.callee.target.callable.id in functionTable && AllCallsIn(inv.args, functionTable.Keys)
      modifies this, irModule
      ensures Valid() && bb == BlockRef(|old(irModule.functions)|, 0)
      ensures BlockExists(AssertEqInvoked(old(Snapshot()), inv).functions, bb)
      ensures irModule.functions == AppendAt(AssertEqInvoked(old(Snapshot()), inv).functions, bb,
                                             [CallInstr(|old(irModule.functions)| + 1, [])])
      ensures functionTable == old(functionTable) && irModule.aliases == old(irModule.aliases)
      ensures currentFunction == Some(|old(irModule.functions)| + 1) && currentBlock == Some(bb)
      ensures result == Inst(MapType(inv.callee.target.callable.resultType), bb, 0)
      ensures EmitEnv() == Env(functionTable, RetTypes(AssertEqInvoked(old(Snapshot()), inv).functions), bb) && Pos() == 1
    {
      ghost var s0 := Snapshot();
      var f := irModule.AddFunction(IrFunction("AssertEq", External, VoidTy, [], []));
      irModule.AddBlock(f, "entry");
      bb := BlockRef(f, 0);
      assert [] + [BasicBlock("entry", [])] == [BasicBlock("entry", [])];
      assert irModule.functions == s0.functions + [Wrapper("AssertEq", VoidTy)];
      currentFunction := Some(f);
      currentBlock := Some(bb);
      var invokeFunc := VisitInvoke(inv.callee, inv.args);
      AssertEqLayout(s0, inv);
      var at := |Instrs(irModule.functions, bb)|;
      irModule.Append(bb, CallInstr(invokeFunc.func, []));
      result := Inst(irModule.functions[invokeFunc.func].retType, bb, at);
      AppendAtRetTypes(AssertEqInvoked(s0, inv).functions, bb, [CallInstr(invokeFunc.func, [])]);
    }

    /** The second half of VisitAssertEq: the expected expression's code on
        block `bb`, then the comparison of `result` with its value, then the
        return. The C++ assertion that both have the same type is the
        precondition on ExprType. */
    method FinishAssertEq(bb: BlockRef, result: Value, expected: Expr)
      requires Valid() && currentBlock == Some(bb) && CallsIn(expected, functionTable.Keys)
      requires result.Inst? && (result.ty.IsInteger() || result.ty == FloatTy)
      requires ExprType(expected, functionTable, RetTypes(irModule.functions)) == Some(result.ty)
      modifies this, irModule
      ensures Valid() && Kept()
      ensures var want := Emit(expected, old(EmitEnv()), old(Pos()));
              irModule.functions == AppendAt(old(irModule.functions), bb,
                                             want.code + [CompareEq(result.ty, result, want.value), RetVoid])
    {
      ghost var t := result.ty;
      ghost var fs0 := irModule.functions;
      ghost var want := Emit(expected, EmitEnv(), Pos());
      EmitType(expected, EmitEnv(), Pos());
      var expectedResult := VisitExpression(expected);
      assert TypeOf(result) == TypeOf(expectedResult);
      if result.ty.IsInteger() {
        irModule.Append(bb, ICmpEq(result, expectedResult));
      } else if result.ty == FloatTy {
        irModule.Append(bb, FCmpOEq(result, expectedResult));
      } else {
        assert false;
      }
      irModule.Append(bb, RetVoid);
      AppendAtTwice(fs0, bb, want.code, [CompareEq(t, result, want.value)]);
      AppendAtTwice(fs0, bb, want.code + [CompareEq(t, result, want.value)], [RetVoid]);
      assert want.code + [CompareEq(t, result, want.value)] + [RetVoid] == want.code + [CompareEq(t, result, want.value), RetVoid];
    }

    /** VisitAssertEq: a fresh zero-argument void function "AssertEq" whose
        entry block calls the Invoke function built for `inv`, evaluates
        `expected`, compares the two (integer or single-precision equality)
        and returns. The comparison's result is not used by any instruction. */
    method VisitAssertEq(inv: Invoke, expected: Expr) returns (v: Value)
      requires Valid() && inv.callee.target.callable.id in functionTable
      requires AllCallsIn(inv.args, functionTable.Keys) && CallsIn(expected, functionTable.Keys)
      requires AssertEqTypesOk(Snapshot(), inv, expected)
      modifies this, irModule
      ensures Valid() && Snapshot() == AssertEqStep(old(Snapshot()), inv, expected)
      ensures currentFunction == Some(|old(irModule.functions)| + 1)
      ensures currentBlock == Some(BlockRef(|old(irModule.functions)|, 0))
      ensures v == Null
    {
      ghost var s0 := Snapshot();
      ghost var s2 := AssertEqInvoked(s0, inv);
      ghost var t := MapType(inv.callee.target.callable.resultType);
      AssertEqLayout(s0, inv);
      AssertEqStepIs(s0, inv, expected);
      var bb, result := BeginAssertEq(inv);
      ghost var call := [CallInstr(|s0.functions| + 1, [])];
      ExprTypeExtend(expected, s0.table, RetTypes(s0.functions), [VoidTy, t]);
      ghost var want := Emit(expected, Env(s0.table, RetTypes(s2.functions), bb), 1);
      FinishAssertEq(bb, result, expected);
      AppendAtTwice(s2.functions, bb, call, want.code + [CompareEq(t, result, want.value), RetVoid]);
      v := Null;
    }

    /** VisitNop: emits nothing and yields null. */
    method VisitNop() returns (v: Value)
      ensures v == Null
    {
      v := Null;
    }

    /** The dispatch over expression kinds: appends Emit(e)'s code at the
        cursor and yields its value; the cursor, the table and the aliases
        are as before. */
    method VisitExpression(e: Expr) returns (v: Value)
      requires Valid() && currentBlock.Some? && CallsIn(e, functionTable.Keys)
      modifies this, irModule
      ensures Valid() && Kept()
      ensures irModule.functions == AppendAt(old(irModule.functions), old(currentBlock).value,
                                             Emit(e, old(EmitEnv()), old(Pos())).code)
      ensures v == Emit(e, old(EmitEnv()), old(Pos())).value
      decreases e
    {
      match e
      case Nop =>
        v := VisitNop();
        AppendAtNothing(irModule.functions, currentBlock.value);
      case Block(es) =>
        v := VisitBlock(es);
      case Call(isImport, callee, calleeIndex, args) =>
        v := VisitCall(isImport, callee, calleeIndex, args);
      case Return(vs) =>
        v := VisitReturn(vs);
      case Const(l) =>
        v := ConstValue(l);
        AppendAtNothing(irModule.functions, currentBlock.value);
    }

    /** VisitBlock: the children in order on the current block; yields the
        last child's value, or null when there is none. */
    method VisitBlock(es: seq<Expr>) returns (v: Value)
      requires Valid() && currentBlock.Some? && AllCallsIn(es, functionTable.Keys)
      modifies this, irModule
      ensures Valid() && Kept()
      ensures irModule.functions == AppendAt(old(irModule.functions), old(currentBlock).value,
                                             EmitAll(es, old(EmitEnv()), old(Pos())).code)
      ensures v == LastValue(EmitAll(es, old(EmitEnv()), old(Pos())).values)
      decreases es
    {
      ghost var env := EmitEnv();
      ghost var pos := Pos();
      ghost var fs0 := irModule.functions;
      var bb := currentBlock.value;
      AppendAtNothing(fs0, bb);
      v := Null;
      var i := 0;
      while i < |es|
        invariant 0 <= i <= |es|
        invariant Valid() && Kept()
        invariant irModule.functions == AppendAt(fs0, bb, EmitAll(es[..i], env, pos).code)
        invariant v == LastValue(EmitAll(es[..i], env, pos).values)
      {
        ghost var front := EmitAll(es[..i], env, pos);
        assert EmitEnv() == env && Pos() == pos + |front.code| by {
          AppendAtRetTypes(fs0, bb, front.code);
        }
        v := VisitExpression(es[i]);
        assert irModule.functions == AppendAt(fs0, bb, EmitAll(es[..i + 1], env, pos).code) &&
               v == LastValue(EmitAll(es[..i + 1], env, pos).values) by {
          EmitAllStep(fs0, bb, es, env, pos, i);
        }
        i := i + 1;
      }
      assert es[..|es|] == es;
    }

    /** The argument loop of VisitCall: each argument in order on the
        current block, collecting the values. */
    method VisitArguments(args: seq<Expr>) returns (argValues: seq<Value>)
      requires Valid() && currentBlock.Some? && AllCallsIn(args, functionTable.Keys)
      modifies this, irModule
      ensures Valid() && Kept()
      ensures irModule.functions == AppendAt(old(irModule.functions), old(currentBlock).value,
                                             EmitAll(args, old(EmitEnv()), old(Pos())).code)
      ensures argValues == EmitAll(args, old(EmitEnv()), old(Pos())).values
      decreases args, 0
    {
      ghost var env := EmitEnv();
      ghost var pos := Pos();
      ghost var fs0 := irModule.functions;
      ghost var bb := currentBlock.value;
      AppendAtNothing(fs0, bb);
      argValues := [];
      var i := 0;
      while i < |args|
        invariant 0 <= i <= |args|
        invariant Valid() && Kept()
        invariant irModule.functions == AppendAt(fs0, bb, EmitAll(args[..i], env, pos).code)
        invariant argValues == EmitAll(args[..i], env, pos).values
      {
        ghost var front := EmitAll(args[..i], env, pos);
        assert EmitEnv() == env && Pos() == pos + |front.code| by {
          AppendAtRetTypes(fs0, bb, front.code);
        }
        var a := VisitExpression(args[i]);
        argValues := argValues + [a];
        assert irModule.functions == AppendAt(fs0, bb, EmitAll(args[..i + 1], env, pos).code) &&
               argValues == EmitAll(args[..i + 1], env, pos).values by {
          EmitAllStep(fs0, bb, args, env, pos, i);
        }
        i := i + 1;
      }
      assert args[..|args|] == args;
    }

    /** VisitCall: the arguments left to right, the cursor put back where it
        was, then a call to the callee's registered function with the
        argument values in order. */
    method VisitCall(isImport: bool, callee: CallableId, calleeIndex: int, args: seq<Expr>) returns (v: Value)
      requires Valid() && currentBlock.Some?
      requires callee in functionTable && AllCallsIn(args, functionTable.Keys)
      modifies this, irModule
      ensures Valid() && Kept()
      ensures irModule.functions == AppendAt(old(irModule.functions), old(currentBlock).value,
                                             Emit(Call(isImport, callee, calleeIndex, args), old(EmitEnv()), old(Pos())).code)
      ensures v == Emit(Call(isImport, callee, calleeIndex, args), old(EmitEnv()), old(Pos())).value
      decreases args, 1
    {
      ghost var env := EmitEnv();
      ghost var pos := Pos();
      ghost var fs0 := irModule.functions;
      var bb := currentBlock;
      var argValues := VisitArguments(args);
      ghost var all := EmitAll(args, env, pos);
      currentBlock := bb;
      var target := functionTable[callee];
      var at := |Instrs(irModule.functions, bb.value)|;
      irModule.Append(bb.value, CallInstr(target, argValues));
      AppendAtTwice(fs0, bb.value, all.code, [CallInstr(target, argValues)]);
      AppendAtRetTypes(fs0, bb.value, all.code + [CallInstr(target, argValues)]);
      RetTypesAt(irModule.functions, target);
      v := Inst(irModule.functions[target].retType, bb.value, at);
    }

    /** VisitReturn: `ret void` for an empty list, otherwise the first
        element's code and a `ret` of its value. */
    method VisitReturn(values: seq<Expr>) returns (v: Value)
      requires Valid() && currentBlock.Some? && AllCallsIn(values, functionTable.Keys)
      modifies this, irModule
      ensures Valid() && Kept()
      ensures irModule.functions == AppendAt(old(irModule.functions), old(currentBlock).value,
                                             Emit(Return(values), old(EmitEnv()), old(Pos())).code)
      ensures v == Emit(Return(values), old(EmitEnv()), old(Pos())).value
      decreases values
    {
      var bb := currentBlock.value;
      if |values| == 0 {
        var at := |Instrs(irModule.functions, bb)|;
        irModule.Append(bb, RetVoid);
        return Inst(VoidTy, bb, at);
      }
      ghost var env := EmitEnv();
      ghost var pos := Pos();
      ghost var fs0 := irModule.functions;
      var r := VisitExpression(values[0]);
      ghost var first := Emit(values[0], env, pos);
      var at := |Instrs(irModule.functions, bb)|;
      irModule.Append(bb, Ret(r));
      AppendAtTwice(fs0, bb, first.code, [Ret(r)]);
      v := Inst(VoidTy, bb, at);
    }
  }
}

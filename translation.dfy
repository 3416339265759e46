/*
 * The translation rules of src/waot_visitor.cc as pure functions: the type
 * map, the symbol mangling, the code each expression kind emits, and one
 * step function per Visit* method, from the translator state before the
 * visit to the state after it. The visitor class proves its methods
 * against these steps.
 */
module Translation {
  import opened WasmAst
  import opened TargetIr

  /** getLLVMType: the target type of each value-type tag. */
  function MapType(t: WasmType): (r: TargetType)
    ensures r == VoidTy <==> t == Void
    ensures r.IsInteger() <==> (t == I32 || t == I64)
    ensures r.IsFloatingPoint() <==> (t == F32 || t == F64)
    ensures r.BitWidth() == t.BitWidth()
  {
    match t
    case Void => VoidTy
    case I32 => Int32Ty
    case I64 => Int64Ty
    case F32 => FloatTy
    case F64 => DoubleTy
  }

  /** The link-time symbol of `name` in module `moduleName`. */
  function Mangle(moduleName: string, name: string): (r: string)
    ensures |r| == |moduleName| + |name| + 2
    ensures r[0] == '.' && r[|moduleName| + 1] == '.'
    ensures r[1..|moduleName| + 1] == moduleName && r[|moduleName| + 2..] == name
  {
    "." + moduleName + "." + name
  }

  const TwoTo32: nat := 0x1_0000_0000
  const TwoTo64: nat := 0x1_0000_0000_0000_0000

  /** The C++ conversion of an integer payload to the uint64_t parameter of ConstantInt::get. */
  function ToUint64(x: int): nat
  {
    x % TwoTo64
  }

  /** ConstantInt::get(ty, v): an integer constant of type `ty` holding `v`
      truncated to the width of `ty`. */
  function IntConstant(ty: TargetType, v: nat): Value
    requires ty.IsInteger()
  {
    ConstInt(ty, if ty == Int32Ty then v % TwoTo32 else v % TwoTo64)
  }

  /** The two's-complement reading of a `width`-bit pattern. */
  function Signed(bits: nat, width: nat): int
    requires width == 32 || width == 64
  {
    var half := if width == 32 then 0x8000_0000 else 0x8000_0000_0000_0000;
    if bits < half then bits else bits - 2 * half
  }

  /** VisitConst: the constant a literal compiles to. */
  function ConstValue(l: Literal): (v: Value)
    ensures TypeOf(v) == Some(MapType(l.Type()))
    ensures v.ConstInt? <==> (l.I32Lit? || l.I64Lit?)
    ensures l.VoidLit? ==> v == UndefVoid
    ensures l.F32Lit? ==> v == ConstFP(FloatTy, l.f32)
    ensures l.F64Lit? ==> v == ConstFP(DoubleTy, l.f64)
  {
    match l
    case VoidLit => UndefVoid
    case I32Lit(x) => IntConstant(MapType(I32), ToUint64(x))
    case I64Lit(x) => IntConstant(MapType(I64), ToUint64(x))
    case F32Lit(b) => ConstFP(MapType(F32), b)
    case F64Lit(b) => ConstFP(MapType(F64), b)
  }

  /** The name a parameter gets: none when the argument's name is empty. */
  function ParamName(v: Variable): (r: Option<string>)
    ensures r.None? <==> v.name == ""
    ensures r.Some? ==> r.value == v.name
  {
    if v.name == "" then None else Some(v.name)
  }

  /** GetFunction's new function: the signature of `c`, with no blocks yet. */
  function Declaration(c: Callable, linkage: Linkage): (f: IrFunction)
    ensures f.name == c.localName && f.linkage == linkage && f.blocks == []
    ensures f.retType == MapType(c.resultType)
    ensures |f.params| == |c.args|
    ensures forall k | 0 <= k < |c.args| :: f.params[k].ty == MapType(c.args[k].ty)
    ensures forall k | 0 <= k < |c.args| :: f.params[k].name == ParamName(c.args[k])
  {
    var retType := if c.resultType != Void then MapType(c.resultType) else VoidTy;
    var params := seq(|c.args|, k requires 0 <= k < |c.args| => Param(MapType(c.args[k].ty), ParamName(c.args[k])));
    IrFunction(c.localName, linkage, retType, params, [])
  }

  /** The allocas of a function's locals, in declaration order. */
  function Allocas(locals: seq<Variable>): (r: seq<Instr>)
    ensures |r| == |locals|
    ensures forall k | 0 <= k < |r| :: r[k] == Alloca(MapType(locals[k].ty), locals[k].name)
  {
    if locals == [] then []
    else
      var last := locals[|locals| - 1];
      Allocas(locals[..|locals| - 1]) + [Alloca(MapType(last.ty), last.name)]
  }

  /** Every callee in `table` has a function among the first `n`. */
  predicate TableOk(table: map<CallableId, nat>, n: nat)
  {
    forall id | id in table :: table[id] < n
  }

  /** What emission reads: the symbol table, the return type of each
      existing function, and the block being appended to (current_bb_). */
  datatype Env = Env(table: map<CallableId, nat>, rets: seq<TargetType>, at: BlockRef)

  predicate EnvOk(env: Env)
  {
    TableOk(env.table, |env.rets|)
  }

  datatype Emitted = Emitted(code: seq<Instr>, value: Value)
  datatype EmittedAll = EmittedAll(code: seq<Instr>, values: seq<Value>)

  function LastValue(vs: seq<Value>): Value
  {
    if vs == [] then Null else vs[|vs| - 1]
  }

  /** The instructions VisitExpression appends for `e` to a block that
      already holds `pos` instructions, and the value it yields. */
  function Emit(e: Expr, env: Env, pos: nat): Emitted
    requires EnvOk(env) && CallsIn(e, env.table.Keys)
    decreases e
  {
    match e
    case Nop => Emitted([], Null)
    case Block(es) =>
      var r := EmitAll(es, env, pos);
      Emitted(r.code, LastValue(r.values))
    case Call(_, callee, _, args) =>
      var r := EmitAll(args, env, pos);
      var f := env.table[callee];
      Emitted(r.code + [CallInstr(f, r.values)], Inst(env.rets[f], env.at, pos + |r.code|))
    case Return(vs) =>
      if |vs| == 0 then Emitted([RetVoid], Inst(VoidTy, env.at, pos))
      else
        var r := Emit(vs[0], env, pos);
        Emitted(r.code + [Ret(r.value)], Inst(VoidTy, env.at, pos + |r.code|))
    case Const(l) => Emitted([], ConstValue(l))
  }

  /** The expressions `es` emitted left to right, with their values in order. */
  function EmitAll(es: seq<Expr>, env: Env, pos: nat): (r: EmittedAll)
    requires EnvOk(env) && AllCallsIn(es, env.table.Keys)
    ensures |r.values| == |es|
    decreases es
  {
    if es == [] then EmittedAll([], [])
    else
      var front := EmitAll(es[..|es| - 1], env, pos);
      var last := Emit(es[|es| - 1], env, pos + |front.code|);
      EmittedAll(front.code + last.code, front.values + [last.value])
  }

  /** The type of the value `e` yields, read off the AST and the table. */
  function ExprType(e: Expr, table: map<CallableId, nat>, rets: seq<TargetType>): Option<TargetType>
    requires TableOk(table, |rets|) && CallsIn(e, table.Keys)
    decreases e
  {
    match e
    case Nop => None
    case Block(es) => if es == [] then None else ExprType(es[|es| - 1], table, rets)
    case Call(_, callee, _, _) => Some(rets[table[callee]])
    case Return(_) => Some(VoidTy)
    case Const(l) => Some(MapType(l.Type()))
  }

  /** VisitFunction's entry block: the allocas, the body, and the implicit
      return when the block is not yet terminated. */
  function EntryCode(f: Function, env: Env): seq<Instr>
    requires EnvOk(env) && AllCallsIn(f.body, env.table.Keys)
  {
    var allocas := Allocas(f.locals);
    var body := EmitAll(f.body, env, |allocas|);
    var block := allocas + body.code;
    if HasTerminator(block) then block
    else if f.callable.resultType == Void then block + [RetVoid]
    else block + [Ret(LastValue(body.values))]
  }

  /** functions_.emplace(id, n): registers `id` at `n` when it is not yet
      registered; an existing entry is never replaced. */
  function Emplace(table: map<CallableId, nat>, id: CallableId, n: nat): (r: map<CallableId, nat>)
    ensures r.Keys == table.Keys + {id}
    ensures TableOk(table, n) ==> TableOk(r, n + 1)
  {
    if id in table then table else table[id := n]
  }

  /** The translator's state: the target module's functions and aliases, and
      the symbol table (functions_). */
  datatype State = State(functions: seq<IrFunction>, aliases: seq<Alias>, table: map<CallableId, nat>)

  predicate StateOk(s: State)
  {
    TableOk(s.table, |s.functions|)
  }

  /** VisitImport. */
  function ImportStep(s: State, imp: Import): (r: State)
    requires StateOk(s)
    ensures StateOk(r)
  {
    var n := |s.functions|;
    var decl := Declaration(imp.callable, External);
    State(s.functions + [decl.(name := Mangle(imp.moduleName, imp.funcName))], s.aliases,
          Emplace(s.table, imp.callable.id, n))
  }

  /** A declared function with a single block named "entry" holding `code`. */
  function WithEntry(decl: IrFunction, code: seq<Instr>): IrFunction
  {
    decl.(blocks := [BasicBlock("entry", code)])
  }

  /** VisitFunction. */
  function CompileStep(s: State, f: Function): (r: State)
    requires StateOk(s) && AllCallsIn(f.body, s.table.Keys + {f.callable.id})
    ensures StateOk(r)
  {
    var n := |s.functions|;
    var decl := Declaration(f.callable, Internal);
    var table := Emplace(s.table, f.callable.id, n);
    var env := Env(table, RetTypes(s.functions) + [decl.retType], BlockRef(n, 0));
    assert table.Keys == s.table.Keys + {f.callable.id};
    State(s.functions + [WithEntry(decl, EntryCode(f, env))], s.aliases, table)
  }

  /** VisitExport. */
  function ExportStep(s: State, x: Export): State
    requires x.target.callable.id in s.table
  {
    State(s.functions, s.aliases + [Alias(Mangle(x.moduleName, x.name), External, s.table[x.target.callable.id])], s.table)
  }

  /** A fresh externally linked zero-argument function with one empty entry block. */
  function Wrapper(name: string, retType: TargetType): IrFunction
  {
    IrFunction(name, External, retType, [], [BasicBlock("entry", [])])
  }

  /** VisitInvoke. */
  function InvokeStep(s: State, callee: Export, args: seq<Expr>): (r: State)
    requires StateOk(s) && callee.target.callable.id in s.table && AllCallsIn(args, s.table.Keys)
    ensures StateOk(r)
  {
    var n := |s.functions|;
    var fs := s.functions + [Wrapper("Invoke", MapType(callee.target.callable.resultType))];
    var env := Env(s.table, RetTypes(fs), BlockRef(n, 0));
    var call := Emit(Call(false, callee.target.callable.id, callee.target.indexInModule, args), env, 0);
    State(AppendAt(fs, env.at, call.code + [Ret(call.value)]), s.aliases, s.table)
  }

  /** What VisitAssertEq asserts: the invoked function's result type is an
      integer type or single-precision float, and the expected expression
      yields a value of that same type. */
  predicate AssertEqTypesOk(s: State, inv: Invoke, expected: Expr)
    requires StateOk(s) && CallsIn(expected, s.table.Keys)
  {
    var t := MapType(inv.callee.target.callable.resultType);
    (t.IsInteger() || t == FloatTy) && ExprType(expected, s.table, RetTypes(s.functions)) == Some(t)
  }

  /** VisitAssertEq up to its call of VisitInvoke: the AssertEq wrapper is
      added, then the Invoke function. */
  function AssertEqInvoked(s: State, inv: Invoke): (r: State)
    requires StateOk(s) && inv.callee.target.callable.id in s.table && AllCallsIn(inv.args, s.table.Keys)
    ensures StateOk(r)
  {
    InvokeStep(State(s.functions + [Wrapper("AssertEq", VoidTy)], s.aliases, s.table), inv.callee, inv.args)
  }

  /** The equality comparison VisitAssertEq emits for values of type `t`:
      integer equality for integer types, ordered floating-point equality
      otherwise. */
  function CompareEq(t: TargetType, lhs: Value, rhs: Value): Instr
  {
    if t.IsInteger() then ICmpEq(lhs, rhs) else FCmpOEq(lhs, rhs)
  }

  /** VisitAssertEq. */
  function AssertEqStep(s: State, inv: Invoke, expected: Expr): (r: State)
    requires StateOk(s) && inv.callee.target.callable.id in s.table
    requires AllCallsIn(inv.args, s.table.Keys) && CallsIn(expected, s.table.Keys)
    requires AssertEqTypesOk(s, inv, expected)
    ensures StateOk(r)
  {
    var n := |s.functions|;
    var at := BlockRef(n, 0);
    var s2 := AssertEqInvoked(s, inv);
    var t := MapType(inv.callee.target.callable.resultType);
    var result := Inst(t, at, 0);
    var want := Emit(expected, Env(s.table, RetTypes(s2.functions), at), 1);
    var cmp := CompareEq(t, result, want.value);
    State(AppendAt(s2.functions, at, [CallInstr(n + 1, [])] + want.code + [cmp, RetVoid]), s.aliases, s.table)
  }

  /** VisitModule's import loop. */
  function ImportAll(s: State, imports: seq<Import>): (r: State)
    requires StateOk(s)
    ensures StateOk(r) && r.table.Keys == s.table.Keys + ImportIds(imports)
    ensures |r.functions| == |s.functions| + |imports| && r.functions[..|s.functions|] == s.functions
    ensures r.aliases == s.aliases
    decreases |imports|
  {
    if imports == [] then s
    else ImportStep(ImportAll(s, imports[..|imports| - 1]), imports[|imports| - 1])
  }

  /** Each function body calls only callees registered before it is compiled:
      those in `keys`, the function itself, and the functions before it. */
  predicate BodiesOrdered(keys: set<CallableId>, funcs: seq<Function>)
    decreases |funcs|
  {
    funcs == [] ||
    var n := |funcs| - 1;
    BodiesOrdered(keys, funcs[..n]) && AllCallsIn(funcs[n].body, keys + FunctionIds(funcs[..n]) + {funcs[n].callable.id})
  }

  /** VisitModule's function loop. */
  function CompileAll(s: State, funcs: seq<Function>): (r: State)
    requires StateOk(s) && BodiesOrdered(s.table.Keys, funcs)
    ensures StateOk(r) && r.table.Keys == s.table.Keys + FunctionIds(funcs)
    ensures |r.functions| == |s.functions| + |funcs| && r.functions[..|s.functions|] == s.functions
    ensures r.aliases == s.aliases
    decreases |funcs|
  {
    if funcs == [] then s
    else
      var n := |funcs| - 1;
      var prev := CompileAll(s, funcs[..n]);
      assert FunctionIds(funcs) == FunctionIds(funcs[..n]) + {funcs[n].callable.id};
      CompileStep(prev, funcs[n])
  }

  /** Every export names a registered function. */
  predicate ExportsRegistered(keys: set<CallableId>, exports: seq<Export>)
  {
    forall k | 0 <= k < |exports| :: exports[k].target.callable.id in keys
  }

  /** VisitModule's export loop. */
  function ExportAll(s: State, exports: seq<Export>): (r: State)
    requires ExportsRegistered(s.table.Keys, exports)
    ensures r.functions == s.functions && r.table == s.table
    ensures |r.aliases| == |s.aliases| + |exports| && r.aliases[..|s.aliases|] == s.aliases
    decreases |exports|
  {
    if exports == [] then s
    else ExportStep(ExportAll(s, exports[..|exports| - 1]), exports[|exports| - 1])
  }

  /** What VisitModule needs of the module: each body calls only imports,
      callees already in `keys`, itself and earlier functions; every export
      names one of those. */
  predicate ModuleReady(keys: set<CallableId>, m: Module)
  {
    BodiesOrdered(keys + ImportIds(m.imports), m.functions) &&
    ExportsRegistered(keys + ImportIds(m.imports) + FunctionIds(m.functions), m.exports)
  }

  /** No import or function of `m` is registered yet, and no two share an id. */
  predicate FreshIds(keys: set<CallableId>, m: Module)
  {
    DistinctIds(m) &&
    (forall i | 0 <= i < |m.imports| :: m.imports[i].callable.id !in keys) &&
    (forall j | 0 <= j < |m.functions| :: m.functions[j].callable.id !in keys)
  }

  /** Every function with a result has a non-empty body. */
  predicate BodiesNonEmpty(funcs: seq<Function>)
  {
    forall j | 0 <= j < |funcs| :: funcs[j].callable.resultType != Void ==> |funcs[j].body| > 0
  }

  /** VisitModule: imports, then functions, then exports. */
  function Translate(s: State, m: Module): State
    requires StateOk(s) && ModuleReady(s.table.Keys, m)
  {
    var s1 := ImportAll(s, m.imports);
    var s2 := CompileAll(s1, m.functions);
    ExportAll(s2, m.exports)
  }
}

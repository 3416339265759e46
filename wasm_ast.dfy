/*
 * The parsed WebAssembly module that the translator consumes. The AST
 * declarations themselves (wasm.h) are not part of this model; these are
 * the minimal shapes that src/waot_visitor.cc reads.
 */
module WasmAst {

  /** The value-type tag of a WebAssembly value: the four value types of
      section 2.3.1 of the WebAssembly Core Specification 1.0, plus void
      for functions and expressions that produce no value. */
  datatype WasmType = Void | I32 | I64 | F32 | F64
  {
    /** The bit width the WebAssembly Core Specification gives each value type. */
    function BitWidth(): nat
    {
      match this
      case Void => 0
      case I32 => 32
      case I64 => 64
      case F32 => 32
      case F64 => 64
    }
  }

  type Int32 = x: int | -0x8000_0000 <= x < 0x8000_0000
  type Int64 = x: int | -0x8000_0000_0000_0000 <= x < 0x8000_0000_0000_0000
  /** Raw IEEE 754 bit patterns; floating-point semantics are not modelled. */
  type Bits32 = x: nat | x < 0x1_0000_0000
  type Bits64 = x: nat | x < 0x1_0000_0000_0000_0000

  /** A literal: a type tag together with the payload of that type. */
  datatype Literal =
    | VoidLit
    | I32Lit(i32: Int32)
    | I64Lit(i64: Int64)
    | F32Lit(f32: Bits32)
    | F64Lit(f64: Bits64)
  {
    function Type(): WasmType
    {
      match this
      case VoidLit => Void
      case I32Lit(_) => I32
      case I64Lit(_) => I64
      case F32Lit(_) => F32
      case F64Lit(_) => F64
    }
  }

  /** The identity of an AST callable node (its address in the source). Two
      structurally equal callables with different ids are different entries. */
  type CallableId = nat

  /** An argument or a local slot: its type and its name ("" when unnamed). */
  datatype Variable = Variable(ty: WasmType, name: string)

  /** The shape shared by functions and imports. */
  datatype Callable = Callable(id: CallableId, resultType: WasmType, args: seq<Variable>, localName: string)

  /** The expression kinds the translator handles. `Call` names its callee by
      identity; `isImport` and `calleeIndex` are carried but not used by the
      translation. `Return` holds zero or one value expression. */
  datatype Expr =
    | Nop
    | Block(exprs: seq<Expr>)
    | Call(isImport: bool, callee: CallableId, calleeIndex: int, args: seq<Expr>)
    | Return(values: seq<Expr>)
    | Const(literal: Literal)

  datatype Function = Function(callable: Callable, locals: seq<Variable>, body: seq<Expr>, indexInModule: nat)

  datatype Import = Import(callable: Callable, moduleName: string, funcName: string)

  /** An export: the name of the module that owns it, the exported name, and
      the function it exposes. */
  datatype Export = Export(moduleName: string, name: string, target: Function)

  /** Data segments are not part of this model. */
  datatype Module = Module(imports: seq<Import>, functions: seq<Function>, exports: seq<Export>)

  /** A test-script `invoke` directive: an exported callee and its arguments. */
  datatype Invoke = Invoke(callee: Export, args: seq<Expr>)

  /** Every callee that `e` calls is among `ids`. */
  predicate CallsIn(e: Expr, ids: set<CallableId>)
    decreases e
  {
    match e
    case Nop => true
    case Block(es) => forall i | 0 <= i < |es| :: CallsIn(es[i], ids)
    case Call(_, callee, _, args) => callee in ids && forall i | 0 <= i < |args| :: CallsIn(args[i], ids)
    case Return(vs) => forall i | 0 <= i < |vs| :: CallsIn(vs[i], ids)
    case Const(_) => true
  }

  predicate AllCallsIn(es: seq<Expr>, ids: set<CallableId>)
    decreases es
  {
    forall i | 0 <= i < |es| :: CallsIn(es[i], ids)
  }

  /** `e` contains no `Return`, at any depth. */
  predicate ReturnFree(e: Expr)
    decreases e
  {
    match e
    case Nop => true
    case Block(es) => forall i | 0 <= i < |es| :: ReturnFree(es[i])
    case Call(_, _, _, args) => forall i | 0 <= i < |args| :: ReturnFree(args[i])
    case Return(_) => false
    case Const(_) => true
  }

  /** The ids of a list of imports. */
  function ImportIds(imports: seq<Import>): set<CallableId>
  {
    if imports == [] then {}
    else ImportIds(imports[..|imports| - 1]) + {imports[|imports| - 1].callable.id}
  }

  /** The ids of a list of functions. */
  function FunctionIds(funcs: seq<Function>): set<CallableId>
  {
    if funcs == [] then {}
    else FunctionIds(funcs[..|funcs| - 1]) + {funcs[|funcs| - 1].callable.id}
  }

  /** The ids of the imports and functions are pairwise distinct (distinct AST nodes). */
  predicate DistinctIds(m: Module)
  {
    (forall i, j | 0 <= i < j < |m.imports| :: m.imports[i].callable.id != m.imports[j].callable.id) &&
    (forall i, j | 0 <= i < j < |m.functions| :: m.functions[i].callable.id != m.functions[j].callable.id) &&
    (forall i, j | 0 <= i < |m.imports| && 0 <= j < |m.functions| :: m.imports[i].callable.id != m.functions[j].callable.id)
  }
}

/*
 * An abstract stand-in for the LLVM module the translator writes into: a
 * list of functions (each with a signature and basic blocks of
 * instructions) and a list of aliases. Only what the translator does with
 * it is modelled: create functions, blocks and aliases, name them, and
 * append instructions at the end of a block.
 */
module TargetIr {

  datatype Option<T> = None | Some(value: T)

  /** The scalar types of the target. */
  datatype TargetType = VoidTy | Int32Ty | Int64Ty | FloatTy | DoubleTy
  {
    predicate IsInteger() { this == Int32Ty || this == Int64Ty }
    predicate IsFloatingPoint() { this == FloatTy || this == DoubleTy }
    function BitWidth(): nat
    {
      match this
      case VoidTy => 0
      case Int32Ty => 32
      case Int64Ty => 64
      case FloatTy => 32
      case DoubleTy => 64
    }
  }

  datatype Linkage = Internal | External

  /** A basic block: the index of its function and its index among that function's blocks. */
  datatype BlockRef = BlockRef(func: nat, block: nat)

  /** A value handle. `Inst(ty, at, pos)` is the value of the instruction at
      position `pos` of block `at`, of type `ty`; `FunctionAddr(f)` is the
      address of function `f`; `Null` is the null handle. */
  datatype Value =
    | Null
    | ConstInt(ty: TargetType, bits: nat)
    | ConstFP(ty: TargetType, payload: nat)
    | UndefVoid
    | Inst(ty: TargetType, at: BlockRef, pos: nat)
    | FunctionAddr(func: nat)

  /** The type of a value, when it has a scalar one (None for null and for
      function addresses). */
  function TypeOf(v: Value): Option<TargetType>
  {
    match v
    case Null => None
    case ConstInt(ty, _) => Some(ty)
    case ConstFP(ty, _) => Some(ty)
    case UndefVoid => Some(VoidTy)
    case Inst(ty, _, _) => Some(ty)
    case FunctionAddr(_) => None
  }

  datatype Instr =
    | Alloca(ty: TargetType, name: string)
    | CallInstr(callee: nat, args: seq<Value>)
    | Ret(v: Value)
    | RetVoid
    | ICmpEq(lhs: Value, rhs: Value)
    | FCmpOEq(lhs: Value, rhs: Value)

  function Operands(i: Instr): seq<Value>
  {
    match i
    case Alloca(_, _) => []
    case CallInstr(_, args) => args
    case Ret(v) => [v]
    case RetVoid => []
    case ICmpEq(a, b) => [a, b]
    case FCmpOEq(a, b) => [a, b]
  }

  predicate IsTerminator(i: Instr) { i.Ret? || i.RetVoid? }

  /** A block has a terminator when its last instruction is one. */
  predicate HasTerminator(instrs: seq<Instr>)
  {
    |instrs| > 0 && IsTerminator(instrs[|instrs| - 1])
  }

  datatype BasicBlock = BasicBlock(blockName: string, instrs: seq<Instr>)

  /** A parameter; `name` is None for an anonymous one. */
  datatype Param = Param(ty: TargetType, name: Option<string>)

  datatype IrFunction = IrFunction(name: string, linkage: Linkage, retType: TargetType,
                                   params: seq<Param>, blocks: seq<BasicBlock>)

  datatype Alias = Alias(name: string, linkage: Linkage, target: nat)

  predicate BlockExists(fs: seq<IrFunction>, b: BlockRef)
  {
    b.func < |fs| && b.block < |fs[b.func].blocks|
  }

  function Instrs(fs: seq<IrFunction>, b: BlockRef): seq<Instr>
    requires BlockExists(fs, b)
  {
    fs[b.func].blocks[b.block].instrs
  }

  /** The return types of the functions, in order. */
  function RetTypes(fs: seq<IrFunction>): (r: seq<TargetType>)
    ensures |r| == |fs|
  {
    if fs == [] then [] else RetTypes(fs[..|fs| - 1]) + [fs[|fs| - 1].retType]
  }

  lemma {:induction false} RetTypesAt(fs: seq<IrFunction>, i: nat)
    requires i < |fs|
    ensures RetTypes(fs)[i] == fs[i].retType
    decreases |fs|
  {
    if i < |fs| - 1 {
      assert fs[..|fs| - 1][i] == fs[i];
      RetTypesAt(fs[..|fs| - 1], i);
    }
  }

  /** Two function lists with the same return types, position by position. */
  lemma {:induction false} RetTypesEqual(fs: seq<IrFunction>, gs: seq<IrFunction>)
    requires |fs| == |gs|
    requires forall i | 0 <= i < |fs| :: fs[i].retType == gs[i].retType
    ensures RetTypes(fs) == RetTypes(gs)
    decreases |fs|
  {
    if fs != [] {
      RetTypesEqual(fs[..|fs| - 1], gs[..|gs| - 1]);
    }
  }

  lemma {:induction false} RetTypesAppend(fs: seq<IrFunction>, f: IrFunction)
    ensures RetTypes(fs + [f]) == RetTypes(fs) + [f.retType]
  {
    assert (fs + [f])[..|fs|] == fs;
  }

  /** `fs` with `code` appended at the end of block `b`: what an IR builder
      positioned at the end of `b` produces. */
  function AppendAt(fs: seq<IrFunction>, b: BlockRef, code: seq<Instr>): (r: seq<IrFunction>)
    requires BlockExists(fs, b)
    ensures |r| == |fs| && BlockExists(r, b)
    ensures Instrs(r, b) == Instrs(fs, b) + code
  {
    var f := fs[b.func];
    var bb := f.blocks[b.block];
    fs[b.func := f.(blocks := f.blocks[b.block := bb.(instrs := bb.instrs + code)])]
  }

  /** Appending to one block changes no other block and no signature. */
  lemma {:induction false} AppendAtFrame(fs: seq<IrFunction>, b: BlockRef, code: seq<Instr>)
    requires BlockExists(fs, b)
    ensures forall c | BlockExists(fs, c) :: BlockExists(AppendAt(fs, b, code), c) &&
              (c != b ==> Instrs(AppendAt(fs, b, code), c) == Instrs(fs, c))
    ensures forall i | 0 <= i < |fs| :: AppendAt(fs, b, code)[i].retType == fs[i].retType &&
              AppendAt(fs, b, code)[i].name == fs[i].name && AppendAt(fs, b, code)[i].linkage == fs[i].linkage &&
              AppendAt(fs, b, code)[i].params == fs[i].params && |AppendAt(fs, b, code)[i].blocks| == |fs[i].blocks|
  {
  }

  lemma {:induction false} AppendAtRetTypes(fs: seq<IrFunction>, b: BlockRef, code: seq<Instr>)
    requires BlockExists(fs, b)
    ensures RetTypes(AppendAt(fs, b, code)) == RetTypes(fs)
  {
    AppendAtFrame(fs, b, code);
    RetTypesEqual(AppendAt(fs, b, code), fs);
  }

  /** Appending twice is appending the concatenation. */
  lemma {:induction false} AppendAtTwice(fs: seq<IrFunction>, b: BlockRef, c1: seq<Instr>, c2: seq<Instr>)
    requires BlockExists(fs, b)
    ensures AppendAt(AppendAt(fs, b, c1), b, c2) == AppendAt(fs, b, c1 + c2)
  {
    var f := fs[b.func];
    var bb := f.blocks[b.block];
    var once := AppendAt(fs, b, c1);
    var f1 := f.(blocks := f.blocks[b.block := bb.(instrs := bb.instrs + c1)]);
    assert once == fs[b.func := f1];
    assert once[b.func].blocks[b.block] == bb.(instrs := bb.instrs + c1);
    assert bb.instrs + c1 + c2 == bb.instrs + (c1 + c2);
    assert f1.blocks[b.block := bb.(instrs := bb.instrs + c1 + c2)] == f.blocks[b.block := bb.(instrs := bb.instrs + (c1 + c2))];
  }

  /** Four appends in a row, the last two single instructions, are one append. */
  lemma {:induction false} AppendAtChain(fs: seq<IrFunction>, b: BlockRef, c1: seq<Instr>, c2: seq<Instr>, i3: Instr)
    requires BlockExists(fs, b)
    ensures AppendAt(AppendAt(AppendAt(AppendAt(fs, b, c1), b, c2), b, [i3]), b, [RetVoid])
         == AppendAt(fs, b, c1 + c2 + [i3, RetVoid])
  {
    AppendAtTwice(fs, b, c1, c2);
    AppendAtTwice(AppendAt(fs, b, c1 + c2), b, [i3], [RetVoid]);
    assert [i3] + [RetVoid] == [i3, RetVoid];
    AppendAtTwice(fs, b, c1 + c2, [i3, RetVoid]);
  }

  lemma {:induction false} AppendAtNothing(fs: seq<IrFunction>, b: BlockRef)
    requires BlockExists(fs, b)
    ensures AppendAt(fs, b, []) == fs
  {
    var f := fs[b.func];
    var bb := f.blocks[b.block];
    assert bb.instrs + [] == bb.instrs;
    assert f.blocks[b.block := bb] == f.blocks;
  }

  /** Appending to a block of an earlier function commutes with adding functions at the end. */
  lemma {:induction false} AppendAtExtend(fs: seq<IrFunction>, more: seq<IrFunction>, b: BlockRef, code: seq<Instr>)
    requires BlockExists(fs, b)
    ensures BlockExists(fs + more, b)
    ensures AppendAt(fs + more, b, code) == AppendAt(fs, b, code) + more
  {
    assert (fs + more)[b.func] == fs[b.func];
  }

  /** The target module: LLVM's Module. */
  class IrModule {
    var functions: seq<IrFunction>
    var aliases: seq<Alias>

    constructor ()
      ensures functions == [] && aliases == []
    {
      functions := [];
      aliases := [];
    }

    /** Function::Create: adds a function at the end and returns its index. */
    method AddFunction(f: IrFunction) returns (index: nat)
      modifies this
      ensures functions == old(functions) + [f] && aliases == old(aliases)
      ensures index == |old(functions)|
    {
      index := |functions|;
      functions := functions + [f];
    }

    /** BasicBlock::Create: adds an empty block at the end of function `f`. */
    method AddBlock(f: nat, blockName: string)
      requires f < |functions|
      modifies this
      ensures functions == old(functions)[f := old(functions)[f].(blocks := old(functions)[f].blocks + [BasicBlock(blockName, [])])]
      ensures aliases == old(aliases)
    {
      functions := functions[f := functions[f].(blocks := functions[f].blocks + [BasicBlock(blockName, [])])];
    }

    /** Value::setName on a function. */
    method SetFunctionName(f: nat, name: string)
      requires f < |functions|
      modifies this
      ensures functions == old(functions)[f := old(functions)[f].(name := name)]
      ensures aliases == old(aliases)
    {
      functions := functions[f := functions[f].(name := name)];
    }

    /** Value::setName on parameter `k` of function `f`. */
    method SetParamName(f: nat, k: nat, name: string)
      requires f < |functions| && k < |functions[f].params|
      modifies this
      ensures functions == old(functions)[f := old(functions)[f].(params :=
                old(functions)[f].params[k := old(functions)[f].params[k].(name := Some(name))])]
      ensures aliases == old(aliases)
    {
      var g := functions[f];
      functions := functions[f := g.(params := g.params[k := g.params[k].(name := Some(name))])];
    }

    /** An IR builder positioned at the end of block `b` inserts `i`. */
    method Append(b: BlockRef, i: Instr)
      requires BlockExists(functions, b)
      modifies this
      ensures functions == AppendAt(old(functions), b, [i]) && aliases == old(aliases)
    {
      functions := AppendAt(functions, b, [i]);
    }

    /** GlobalAlias::create. */
    method AddAlias(a: Alias)
      modifies this
      ensures functions == old(functions) && aliases == old(aliases) + [a]
    {
      aliases := aliases + [a];
    }
  }
}

# WAOT visitor: a verified model of the Wasm-to-LLVM translator

This project models `WAOTVisitor` in `src/waot_visitor.cc`, the single-pass
translator of the wasm-aot-prototype. It walks a parsed WebAssembly module
and writes functions, basic blocks, instructions and aliases into an LLVM
module. The LLVM module is replaced by an abstract target module:

- a list of functions, each with a name, a linkage, a return type, named or
  anonymous parameters and basic blocks;
- a list of aliases.

A block is a list of abstract instructions: `alloca`, `call`, `ret`,
`ret void`, `icmp eq` and `fcmp oeq`. An instruction's result is named by
its position (`Inst(type, block, position)`).

Files and modules:

- `wasm_ast.dfy` (`WasmAst`): the AST shapes the translator reads. These
  are value types, literals, callables, functions, imports, exports and the
  five expression kinds. Every callable carries an identity, standing for
  the node's address, which keys `functions_`.
- `target_ir.dfy` (`TargetIr`): the abstract target module. `IrModule` is a
  class whose function and alias lists are updated in place.
- `translation.dfy` (`Translation`): the translation rules as pure
  functions. These are the type map, the mangling, the constant a literal
  becomes, the code each expression emits (`Emit`, `EmitAll`), and one step
  function per `Visit*` method from the state before to the state after.
- `waot_visitor.dfy` (`Visitor`): the class `WaotVisitor`. Its fields are
  the target module, `functions_`, `current_func_` and `current_bb_`, and
  its methods are imperative, with loops. Each method is proved to leave the
  state the matching step function describes.
- `translation_lemmas.dfy`, `constants_names.dfy`, `emission_properties.dfy`,
  `harness_properties.dfy`, `module_layout.dfy`: what the translation
  guarantees. This covers:
  - constant round trips and mangling injectivity;
  - the SSA defined-before-use rule and the implicit return;
  - the shape of the Invoke and AssertEq wrappers;
  - where every import, function and export of a module ends up.

## Model

| member | source | states |
|---|---|---|
| Translation.MapType | src/waot_visitor.cc:24-39 | The map is total on the five tags. The result is void exactly for void, an integer type exactly for i32/i64, and a floating-point type exactly for f32/f64. The bit width is preserved. |
| Translation.Mangle | src/waot_visitor.cc:41-44 | The symbol is a dot, the module name, a dot and the name, at exactly those positions, with length two more than the two names together. |
| ConstantsAndNames.MangleInjective | src/waot_visitor.cc:41-44 | For module names without '.', two symbols are equal if and only if both the module names and the names are equal. |
| ConstantsAndNames.MangleCollision | src/waot_visitor.cc:41-44 | Without that restriction, two different (module, name) pairs ("a.b","c") and ("a","b.c") get the same symbol. |
| Translation.ConstValue | src/waot_visitor.cc:160-177 | The constant has exactly the mapped type of the literal's tag. It is an integer constant exactly for i32/i64 literals. A void literal gives undef-void, and an f32 or f64 literal gives the float or double constant carrying the literal's own bits. |
| ConstantsAndNames.I32ConstantRoundTrip | src/waot_visitor.cc:164-168 | An i32 literal becomes a 32-bit integer constant whose bits, read as two's complement, give back the literal. |
| ConstantsAndNames.I64ConstantRoundTrip | src/waot_visitor.cc:164-168 | An i64 literal becomes a 64-bit integer constant whose bits, read as two's complement, give back the literal. |
| Translation.Declaration | src/waot_visitor.cc:59-69 | The declared function has the callable's name, the given linkage and no blocks. Its return type is the mapped result type (void for void), and its parameter types are the mapped argument types in order. |
| Translation.ParamName | src/waot_visitor.cc:72-77 | A parameter is anonymous exactly when its argument's name is empty; otherwise it carries that name. |
| Translation.Allocas | src/waot_visitor.cc:89-92 | There is one alloca per local, in declaration order, of the local's mapped type and name. |
| Translation.Emplace | src/waot_visitor.cc:78 | `functions_.emplace`: the keys afterwards are the old keys plus the id, and a table whose entries point below n still points below n + 1. |
| TranslationLemmas.EmplaceKeeps | src/waot_visitor.cc:78 | An entry that is already there keeps its value; an id that was not registered gets the new index. |
| Visitor.WaotVisitor.GetFunction | src/waot_visitor.cc:57-80 | Exactly one function, `Declaration(c, linkage)`, is appended and its index is returned. `functions_` becomes `Emplace` of the old table: the index is recorded under the callable's identity only when that identity was not registered yet. The cursor and the aliases are unchanged. |
| Visitor.WaotVisitor.EmitAllocas | src/waot_visitor.cc:88-92 | The block gains exactly the locals' allocas at its end, and nothing else changes. |
| Visitor.WaotVisitor.BeginFunction | src/waot_visitor.cc:83-94 | The new function has one "entry" block holding the allocas, the table is `Emplace` of the old one, and the cursor points at that function and block. |
| Visitor.WaotVisitor.AddEntry | src/waot_visitor.cc:85-92 | The function just declared gets one "entry" block holding exactly the locals' allocas; every earlier function and the aliases are unchanged. |
| Visitor.WaotVisitor.VisitFunction | src/waot_visitor.cc:82-109 | The new state is `CompileStep`: an internal declaration whose single entry block is `EntryCode` (allocas, body code, implicit return when unterminated), registered under the function's identity unless that identity already was. The cursor is left on that block, the entry of the last function. |
| EmissionProperties.ImplicitReturn | src/waot_visitor.cc:100-108 | For a body without `return`, the entry block is the allocas, the body code and exactly one final `ret void` (void result) or `ret` of the last value. No earlier instruction is a terminator. |
| EmissionProperties.ExplicitReturn | src/waot_visitor.cc:100-101 | A body ending in `Return` gets no synthesized return: the block is the allocas plus the body code, and it is terminated. |
| EmissionProperties.EntryTerminated | src/waot_visitor.cc:96-108 | Every compiled entry block ends in a terminator and begins with the allocas. |
| HarnessProperties.ReturnsConstantFive | src/waot_visitor.cc:82-109 | An i32 function whose body is the constant 5 compiles to exactly one entry block `[ret i32 5]`. |
| HarnessProperties.EmptyVoidFunction | src/waot_visitor.cc:82-109 | A void function with an empty body compiles to one entry block: its allocas, then `ret void`. |
| Visitor.WaotVisitor.VisitImport | src/waot_visitor.cc:111-114 | The new state is `ImportStep`: one externally linked declaration renamed to the mangled import name, registered under the import's identity. |
| ModuleLayout.ImportDeclaration | src/waot_visitor.cc:111-114 | An import's declaration is named `Mangle(module, name)`, is external, has no blocks, and has the mapped return type and one parameter per argument. |
| Visitor.WaotVisitor.VisitExport | src/waot_visitor.cc:116-120 | The new state is `ExportStep`: one alias named `Mangle(module, name)`, external, pointing at the exported function's registered index. No function is created and the table is unchanged. |
| Visitor.WaotVisitor.VisitModule | src/waot_visitor.cc:46-55 | It requires a target module. The new state is `Translate`: all imports, then all functions, then all exports, each in list order. It returns that same module. The cursor ends on the entry block of the last compiled function, and is unchanged when the module has no functions. |
| Visitor.WaotVisitor.VisitImports | src/waot_visitor.cc:48-49 | The import loop leaves `ImportAll` of the state, which is the imports folded in order. Its frame excludes the cursor, which stays as it was. |
| Visitor.WaotVisitor.VisitFunctions | src/waot_visitor.cc:50-51 | The function loop leaves `CompileAll` of the state, which is the functions folded in order. The cursor ends on the entry block of the last function, and is unchanged when there are none. |
| Visitor.WaotVisitor.VisitNthFunction | src/waot_visitor.cc:50-51 | One turn of the function loop: the state goes from `CompileAll` of the first i functions to `CompileAll` of the first i + 1, and the cursor is on the entry block of the function just compiled. |
| Visitor.WaotVisitor.VisitExports | src/waot_visitor.cc:52-53 | The export loop leaves `ExportAll` of the state, which is the exports folded in order. No function is added or changed, and the cursor stays where the function loop left it. |
| ModuleLayout.ImportAllFunctionAt | src/waot_visitor.cc:48-49 | After the import loop, import i is the declaration at position (functions before) + i. |
| ModuleLayout.ImportAllTableKeeps | src/waot_visitor.cc:48-49 | The import loop's last step keeps every table entry the earlier steps made. |
| ModuleLayout.ImportAllTableLast | src/waot_visitor.cc:48-49 | The last import is registered at its own position when neither the table nor an earlier import had its identity. |
| ModuleLayout.ImportAllTableAt | src/waot_visitor.cc:48-49 | When neither the table nor an earlier import had its identity, import i is registered at position (functions before) + i. A later import with the same identity does not move it: the first registration stays. |
| ModuleLayout.CompileStepShape | src/waot_visitor.cc:82-109 | Compiling one function appends exactly one function, compiled from it, and registers it at its index. Earlier functions and the aliases are unchanged. |
| ModuleLayout.CompileAllFunctionAt | src/waot_visitor.cc:50-51 | After the function loop, function j is compiled at position (functions before) + j. |
| ModuleLayout.CompileAllTableFrame | src/waot_visitor.cc:50-51 | The function loop never changes an entry that was already registered. |
| ModuleLayout.CompileAllTableKeeps | src/waot_visitor.cc:50-51 | The function loop's last step keeps every table entry the earlier steps made. |
| ModuleLayout.CompileAllTableLast | src/waot_visitor.cc:50-51 | The last function is registered at its own position when neither the table nor an earlier function had its identity. |
| ModuleLayout.CompileAllTableAt | src/waot_visitor.cc:50-51 | When neither the table nor an earlier function had its identity, function j is registered at (functions before) + j; the first registration stays. |
| ModuleLayout.ExportAllLayout | src/waot_visitor.cc:52-53 | After the export loop, export k is the alias at position (aliases before) + k, named by its mangled name and pointing at its target's registered index. |
| ModuleLayout.ExportAllSameTarget | src/waot_visitor.cc:116-120 | Two exports of the same function become two aliases of the same target. |
| ModuleLayout.TranslateIs | src/waot_visitor.cc:46-55 | After the import loop the bodies are still ordered and after the function loop the exports are registered. The imports add one function each and no aliases. |
| ModuleLayout.TranslateImport | src/waot_visitor.cc:46-55 | In the translated module, import i is the declaration at position (functions before) + i. |
| ModuleLayout.TranslateImportTable | src/waot_visitor.cc:46-55 | With distinct identities, import i is registered at (functions before) + i. |
| ModuleLayout.TranslateFunction | src/waot_visitor.cc:46-55 | In the translated module, function j is compiled at position (functions before) + (number of imports) + j. |
| ModuleLayout.TranslateFunctionTable | src/waot_visitor.cc:46-55 | With distinct identities, function j is registered at (functions before) + (number of imports) + j. |
| ModuleLayout.TranslateExport | src/waot_visitor.cc:46-55 | An export of function j becomes the alias at (aliases before) + k, with its mangled name, external linkage and target (functions before) + (number of imports) + j. |
| Visitor.WaotVisitor.VisitNop | src/waot_visitor.cc:124-126 | No code; the value is null. |
| Visitor.WaotVisitor.VisitBlock | src/waot_visitor.cc:127-134 | The children's code is appended in order at the current block. The value is the last child's value, or null when there are none. The table and cursor are unchanged. |
| Visitor.WaotVisitor.VisitExpression | src/waot_visitor.cc:127-177 | Each expression kind appends exactly `Emit`'s code at the current block and yields `Emit`'s value. |
| Visitor.WaotVisitor.VisitArguments | src/waot_visitor.cc:143-146 | The arguments' code is appended left to right, and their values are returned in order. |
| Visitor.WaotVisitor.VisitCall | src/waot_visitor.cc:136-150 | The arguments' code is followed by one call to the callee's registered function with the argument values in order. The cursor is back on the block it started on, and the value is the call's result, of the callee's return type. |
| Visitor.WaotVisitor.VisitReturn | src/waot_visitor.cc:152-158 | An empty list gives `ret void`; otherwise the first value's code followed by `ret` of its value. |
| TranslationLemmas.EmitType | src/waot_visitor.cc:127-177 | The value an expression yields has the type its AST and the table predict. |
| EmissionProperties.EmitDefinedBeforeUse | src/waot_visitor.cc:127-177 | Every instruction of an expression's code uses only constants or values defined earlier in its own code, and its value is one of those. |
| EmissionProperties.EmitAllDefinedBeforeUse | src/waot_visitor.cc:127-134 | The same for a left-to-right sequence, and for each of its values. |
| EmissionProperties.EmitNoTerminator | src/waot_visitor.cc:127-158 | An expression without `return` emits no terminator. |
| Visitor.WaotVisitor.VisitInvoke | src/waot_visitor.cc:179-200 | The new state is `InvokeStep`. `current_bb_` is restored, `current_func_` is left on the wrapper, and the wrapper's address is returned. |
| HarnessProperties.InvokeShape | src/waot_visitor.cc:179-200 | Exactly one function is appended after the existing ones: the external zero-argument "Invoke" of the callee's mapped result type. Its entry block is the arguments' code, the call of the callee with their values, and `ret` of the call's result. |
| Visitor.WaotVisitor.VisitAssertEq | src/waot_visitor.cc:202-227 | It requires the result and expected types to be equal and integer or float. The new state is `AssertEqStep`; the cursor is left on the AssertEq block and the value is null. |
| Visitor.WaotVisitor.BeginAssertEq | src/waot_visitor.cc:204-214 | The AssertEq wrapper and then the Invoke wrapper are added, and the call of Invoke is appended to the AssertEq block. |
| Visitor.WaotVisitor.FinishAssertEq | src/waot_visitor.cc:215-224 | The expected value's code is appended, then `icmp eq` (integer) or `fcmp oeq` (float) of the result against it, then `ret void`. |
| HarnessProperties.AssertEqShape | src/waot_visitor.cc:202-227 | Two functions are appended: the void external "AssertEq", whose block is the call of Invoke, the expected code, the comparison and `ret void`; then "Invoke" of the result type. |
| HarnessProperties.AssertEqComparisonUnused | src/waot_visitor.cc:217-224 | The AssertEq block's comparison is the second-to-last instruction, and no instruction of the block uses its value: the outcome never affects control flow. |
| HarnessProperties.AssertEqI32Example | src/waot_visitor.cc:202-227 | Checking an i32 invoke against the constant 41 is well typed. The AssertEq block is exactly `[call Invoke, icmp eq (result, i32 41), ret void]`. |

## Left out

- LLVM internals: `LLVMContext`, real IR types and IR verification, and `IRBuilder` beyond "append at the end of a block" are not modelled.
- Function names are taken as given. LLVM's renaming of duplicate names (a second "Invoke" or "AssertEq", clashing local names) is not modelled.
- Floating-point literal payloads are opaque bit patterns; float semantics are not modelled.
- `VisitSegment` (empty) and the commented-out `dump()` calls are not modelled.
- `wasm.h` and `waot_visitor.h` are not part of this model. The AST datatypes are minimal stand-ins, and `VisitExpression`'s dispatch is written as a match over the five expression kinds.
- `functions_[...]` in VisitCall and VisitExport inserts a null entry on a missing key. The model requires the callee or exported function to be registered and has no path for an unregistered one.
- Visitor.WaotVisitor.VisitAssertEq: the two C++ `assert`s (equal types; integer or single-precision float) are preconditions, not a failure path.
- Visitor.WaotVisitor.VisitFunction: the C++ `assert` that a non-void function has a non-empty body is a precondition.
- Visitor.WaotVisitor.VisitModule: the null module is excluded by the class invariant, which stands for the C++ `assert(module_)`.
- The loops of VisitModule, VisitCall and the first half of VisitFunction are separate methods (VisitImports, VisitFunctions with its loop body VisitNthFunction, VisitExports, VisitArguments, EmitAllocas, BeginFunction with AddEntry). VisitAssertEq is split into BeginAssertEq and FinishAssertEq. VisitFunction's body loop is VisitBlock's loop, so it calls VisitBlock.
- Calls are emitted against the callee's registered function index and return type; LLVM's function-pointer typing is not modelled.

/*
 * Properties of VisitConst's integer constants and of symbol mangling.
 */
module ConstantsAndNames {
  import opened WasmAst
  import opened TargetIr
  import opened Translation

  /** An i32 literal compiles to a 32-bit constant whose two's-complement
      reading is the literal's value: the chain int32 -> uint64_t -> 32-bit
      APInt loses nothing. */
  lemma {:induction false} I32ConstantRoundTrip(x: Int32)
    ensures ConstValue(I32Lit(x)).ConstInt? && ConstValue(I32Lit(x)).ty == Int32Ty
    ensures ConstValue(I32Lit(x)).bits < TwoTo32
    ensures Signed(ConstValue(I32Lit(x)).bits, 32) == x
  {
  }

  /** An i64 literal compiles to a 64-bit constant whose two's-complement
      reading is the literal's value. */
  lemma {:induction false} I64ConstantRoundTrip(x: Int64)
    ensures ConstValue(I64Lit(x)).ConstInt? && ConstValue(I64Lit(x)).ty == Int64Ty
    ensures ConstValue(I64Lit(x)).bits < TwoTo64
    ensures Signed(ConstValue(I64Lit(x)).bits, 64) == x
  {
  }

  /** Mangling is injective on module names free of '.': the symbol
      determines both the module name and the function name. */
  lemma {:induction false} MangleInjective(m1: string, n1: string, m2: string, n2: string)
    requires '.' !in m1 && '.' !in m2
    ensures Mangle(m1, n1) == Mangle(m2, n2) <==> m1 == m2 && n1 == n2
  {
  }

  /** Without that restriction two different imports can get the same symbol. */
  lemma {:induction false} MangleCollision()
    ensures Mangle("a.b", "c") == Mangle("a", "b.c")
  {
  }
}

/*
 * Properties of the code VisitExpression emits: every instruction uses only
 * values defined earlier in the same block by the same expression (the SSA
 * def-before-use rule), expressions without `return` emit no terminator,
 * and the resulting layout of a function's entry block.
 */
module EmissionProperties {
  import opened WasmAst
  import opened TargetIr
  import opened Translation

  /** `v` is a constant, or the value of an instruction of block `at` at a
      position in [lo, hi). */
  predicate InRange(v: Value, at: BlockRef, lo: nat, hi: nat)
  {
    v.Inst? ==> v.at == at && lo <= v.pos < hi
  }

  /** Code placed at position `pos` of block `at`: each instruction's
      operands are constants or values of instructions at positions from
      `lo` up to, but not including, its own. */
  predicate DefinedBeforeUse(code: seq<Instr>, at: BlockRef, lo: nat, pos: nat)
  {
    forall k, o | 0 <= k < |code| && o in Operands(code[k]) :: InRange(o, at, lo, pos + k)
  }

  lemma {:induction false} DefinedBeforeUseAppend(c1: seq<Instr>, c2: seq<Instr>, at: BlockRef, lo: nat, pos: nat)
    requires DefinedBeforeUse(c1, at, lo, pos) && DefinedBeforeUse(c2, at, lo, pos + |c1|)
    ensures DefinedBeforeUse(c1 + c2, at, lo, pos)
  {
    forall k, o | 0 <= k < |c1 + c2| && o in Operands((c1 + c2)[k])
      ensures InRange(o, at, lo, pos + k)
    {
      if k >= |c1| {
        assert (c1 + c2)[k] == c2[k - |c1|];
      }
    }
  }

  lemma {:induction false} DefinedBeforeUseWiden(code: seq<Instr>, at: BlockRef, lo: nat, lo': nat, pos: nat)
    requires DefinedBeforeUse(code, at, lo, pos) && lo' <= lo
    ensures DefinedBeforeUse(code, at, lo', pos)
  {
  }

  /** The SSA rule for one expression: its code uses only values it defined
      earlier, and the value it yields is a constant or one of its own
      instructions. */
  lemma {:induction false} EmitDefinedBeforeUse(e: Expr, env: Env, pos: nat)
    requires EnvOk(env) && CallsIn(e, env.table.Keys)
    ensures DefinedBeforeUse(Emit(e, env, pos).code, env.at, pos, pos)
    ensures InRange(Emit(e, env, pos).value, env.at, pos, pos + |Emit(e, env, pos).code|)
    decreases e, 1
  {
    match e
    case Nop =>
    case Block(es) =>
      EmitAllDefinedBeforeUse(es, env, pos);
    case Call(_, callee, _, args) =>
      EmitAllDefinedBeforeUse(args, env, pos);
      var r := EmitAll(args, env, pos);
      var call := [CallInstr(env.table[callee], r.values)];
      assert DefinedBeforeUse(call, env.at, pos, pos + |r.code|) by {
        forall o | o in Operands(call[0]) ensures InRange(o, env.at, pos, pos + |r.code|) {
          var i :| 0 <= i < |r.values| && r.values[i] == o;
        }
      }
      DefinedBeforeUseAppend(r.code, call, env.at, pos, pos);
    case Return(vs) =>
      if |vs| > 0 {
        EmitDefinedBeforeUse(vs[0], env, pos);
        var r := Emit(vs[0], env, pos);
        DefinedBeforeUseAppend(r.code, [Ret(r.value)], env.at, pos, pos);
      }
    case Const(l) =>
  }

  /** The SSA rule for a left-to-right sequence: its code uses only values it
      defined earlier, and every value it yields is a constant or one of its
      instructions. */
  lemma {:induction false} EmitAllDefinedBeforeUse(es: seq<Expr>, env: Env, pos: nat)
    requires EnvOk(env) && AllCallsIn(es, env.table.Keys)
    ensures DefinedBeforeUse(EmitAll(es, env, pos).code, env.at, pos, pos)
    ensures forall i | 0 <= i < |es| ::
              InRange(EmitAll(es, env, pos).values[i], env.at, pos, pos + |EmitAll(es, env, pos).code|)
    decreases es, 0
  {
    if es != [] {
      var n := |es| - 1;
      var front := EmitAll(es[..n], env, pos);
      EmitAllDefinedBeforeUse(es[..n], env, pos);
      EmitDefinedBeforeUse(es[n], env, pos + |front.code|);
      var last := Emit(es[n], env, pos + |front.code|);
      DefinedBeforeUseWiden(last.code, env.at, pos + |front.code|, pos, pos + |front.code|);
      DefinedBeforeUseAppend(front.code, last.code, env.at, pos, pos);
    }
  }

  // ---------------------------------------------------------------------
  // Terminators and the implicit return

  /** An expression without `return` emits no terminator. */
  lemma {:induction false} EmitNoTerminator(e: Expr, env: Env, pos: nat)
    requires EnvOk(env) && CallsIn(e, env.table.Keys) && ReturnFree(e)
    ensures forall k | 0 <= k < |Emit(e, env, pos).code| :: !IsTerminator(Emit(e, env, pos).code[k])
    decreases e, 1
  {
    match e
    case Block(es) =>
      EmitAllNoTerminator(es, env, pos);
    case Call(_, _, _, args) =>
      EmitAllNoTerminator(args, env, pos);
    case _ =>
  }

  lemma {:induction false} EmitAllNoTerminator(es: seq<Expr>, env: Env, pos: nat)
    requires EnvOk(env) && AllCallsIn(es, env.table.Keys)
    requires forall i | 0 <= i < |es| :: ReturnFree(es[i])
    ensures forall k | 0 <= k < |EmitAll(es, env, pos).code| :: !IsTerminator(EmitAll(es, env, pos).code[k])
    decreases es, 0
  {
    if es != [] {
      var n := |es| - 1;
      var front := EmitAll(es[..n], env, pos);
      EmitAllNoTerminator(es[..n], env, pos);
      EmitNoTerminator(es[n], env, pos + |front.code|);
    }
  }

  /** A body without `return` gets the implicit return: the entry block is
      the allocas, the body's code and one final `ret void` (void result) or
      `ret` of the last value, and no other instruction is a terminator. */
  lemma {:induction false} ImplicitReturn(f: Function, env: Env)
    requires EnvOk(env) && AllCallsIn(f.body, env.table.Keys)
    requires forall i | 0 <= i < |f.body| :: ReturnFree(f.body[i])
    ensures var body := EmitAll(f.body, env, |f.locals|);
            var code := EntryCode(f, env);
            code == Allocas(f.locals) + body.code +
                    [if f.callable.resultType == Void then RetVoid else Ret(LastValue(body.values))] &&
            forall k | 0 <= k < |code| - 1 :: !IsTerminator(code[k])
  {
    var allocas := Allocas(f.locals);
    var body := EmitAll(f.body, env, |allocas|);
    EmitAllNoTerminator(f.body, env, |allocas|);
    var block := allocas + body.code;
    assert forall k | 0 <= k < |block| :: !IsTerminator(block[k]) by {
      forall k | 0 <= k < |block| ensures !IsTerminator(block[k]) {
        if k >= |allocas| { assert block[k] == body.code[k - |allocas|]; }
      }
    }
  }

  /** A body whose last expression is a `return` suppresses the implicit
      return: the entry block is exactly the allocas and the body's code,
      and it ends with that `ret`. */
  lemma {:induction false} ExplicitReturn(f: Function, env: Env)
    requires EnvOk(env) && AllCallsIn(f.body, env.table.Keys)
    requires |f.body| > 0 && f.body[|f.body| - 1].Return?
    ensures EntryCode(f, env) == Allocas(f.locals) + EmitAll(f.body, env, |f.locals|).code
    ensures HasTerminator(EntryCode(f, env))
  {
    var n := |f.body| - 1;
    var front := EmitAll(f.body[..n], env, |f.locals|);
    var last := Emit(f.body[n], env, |f.locals| + |front.code|);
    var code := Allocas(f.locals) + EmitAll(f.body, env, |f.locals|).code;
    assert code == Allocas(f.locals) + front.code + last.code;
    assert last.code[|last.code| - 1] == code[|code| - 1];
  }

  /** Every compiled entry block ends with a terminator. */
  lemma {:induction false} EntryTerminated(f: Function, env: Env)
    requires EnvOk(env) && AllCallsIn(f.body, env.table.Keys)
    ensures HasTerminator(EntryCode(f, env))
    ensures forall k | 0 <= k < |Allocas(f.locals)| :: EntryCode(f, env)[k] == Allocas(f.locals)[k]
  {
  }
}

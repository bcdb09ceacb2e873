/** Generators as written through lowering and the WebAssembly backend. */
module StreamCompiled {
  import opened Bits
  import opened Ir
  import opened IrLower
  import opened IrFunction
  import opened StreamLower
  import opened StreamCorrect
  import C = StreamC
  import opened StreamSource
  import Wasm
  import opened WasmEmit
  import opened WasmCorrect
  import opened WasmLower
  import opened StreamWasm
  import opened StreamWasmTwo

  /** A generator whose index is called `i`, and nothing else is, is compiled to a
      WebAssembly function that returns its terms as written, and zero for negative
      indices, as long as its registers past the table hold no Booleans. */
  lemma CompiledGenerator(g: C.Generator, args: seq<IrLower.Val>, n: int) returns (passes: nat)
    requires C.Checked(g) && AllStraight(g) && IndexIsI(g.params, g.binders, g.index)
    requires ArgsOk(IntParams(g.params), args) && -TWO63 <= n && n + 1 < TWO63 && |g.params| < MAX_REGS
    requires LowerGenerator(g).Some? ==> BoolsFit(LowerGenerator(g).value)
    ensures LowerGenerator(g).Some?
    ensures var F, types := LowerGenerator(g).value, StreamTypes(Lowered(g));
      |types| <= F.nextReg && EmitFuncBody(F, types).Code? &&
      forall fuel: nat :: fuel >= passes ==>
        Wasm.Call(EmitFuncBody(F, types).code, EntryLocals(LocalTypes(F, types), args + [IrLower.Val.I(n)]), fuel) ==
        Wasm.Returned(Wasm.V64(
          if n < 0 then 0 else C.SourceTerm(g, ParamEnv(IntParams(g.params), args, map[]), n)))
  {
    IndexBound(g);
    LoweredAccepted(g);
    passes := CompiledStreamRuns(Lowered(g), args, n);
    hide StreamFunc, Term, C.SourceTerm, BoolsFit, EmitFuncBody, Wasm.Call, ParamEnv;
    EntryReads(Lowered(g), args, n);
    IntParamTypes(g.params, map[]);
    if n >= 0 { SameTerms(g, ParamEnv(IntParams(g.params), args, map[]), n); }
  }
}

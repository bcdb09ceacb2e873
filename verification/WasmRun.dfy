/** From source to bytes and back: what a WebAssembly engine reads from the bytes written
    for a function computes the function. */
module WasmRun {
  import opened Ir
  import IrLower
  import opened IrFunction
  import Wasm
  import opened WasmEmit
  import opened WasmLower
  import WasmBytes
  import opened WasmWriter

  /** Calling a body: the arguments, then zeros of the types it declares. */
  function CallBody(body: Body, types: seq<Ty>, args: seq<IrLower.Val>, fuel: nat): Wasm.Outcome
    requires |args| <= |types|
  {
    Wasm.Call(body.code, EntryLocals(types + body.locals, args), fuel)
  }

  /** The bytes written for a well-typed function read back as a body that returns, for all
      arguments of the declared types, the value of the source. */
  lemma WrittenFunctionRuns(fn: Function, args: seq<IrLower.Val>) returns (passes: nat)
    requires WellTyped(fn) && ArgsOk(fn.params, args) && |fn.params| <= 4096 && BoolsFit(LowerFunction(fn))
    ensures var F, types := LowerFunction(fn), TypesOf(fn.params);
      |args| == |types| <= F.nextReg && EmitFuncBody(F, types).Code? &&
      var code := EmitFuncBody(F, types).code;
      WasmBytes.Encodable(code) &&
      match ReadBody(BodyBytes(F, types, code))
      case Bad => false
      case Parsed(body, rest) =>
        rest == [] && forall fuel: nat :: fuel >= passes ==>
          CallBody(body, types, args, fuel) ==
          Wasm.Returned(BoxVal(IrLower.Eval(fn.body, ParamEnv(fn.params, args, map[]))))
  {
    hide EmitFuncBody, BoolsFit, WellTyped, WasmBytes.Encodable, ReadBody, BodyBytes, EntryLocals, Wasm.Call;
    var F, types := LowerFunction(fn), TypesOf(fn.params);
    passes := CompiledFunctionRuns(fn, args);
    var code := EmitFuncBody(F, types).code;
    BodyReads(F, types, []);
    LocalsSplit(F, types);
    assert BodyBytes(F, types, code) + [] == BodyBytes(F, types, code);
  }

  lemma LocalsSplit(f: Func, params: seq<Ty>)
    requires |params| <= f.nextReg
    ensures |LocalTypes(f, params)| >= |params| && params + LocalTypes(f, params)[|params|..] == LocalTypes(f, params)
  {
    hide BuildRegTypes;
    assert LocalTypes(f, params)[..|params|] == params;
  }
}

/** The binary compatibility checks run against a compiled subgraph
    module: exported function types, import modules, memory layout, start
    function, size, and the summary check over the required exports and
    handlers. Building and loading the module are not modelled. */
module Compatibility {
  import opened Wrappers
  import opened Wasm
  import Validate

  /** e is a function export named name. */
  predicate IsFunctionExport(e: Export, name: string)
  {
    e.name == name && e.item.FunctionItem?
  }

  /** `has_function_export`. */
  predicate HasFunctionExport(m: WasmModule, name: string)
  {
    exists i :: 0 <= i < |m.exports| && IsFunctionExport(m.exports[i], name)
  }

  /** `has_memory_export`. */
  predicate HasMemoryExport(m: WasmModule, name: string)
  {
    exists i :: 0 <= i < |m.exports| && m.exports[i].name == name && m.exports[i].item.MemoryItem?
  }

  /** The type of the first function export named name; an export of that
      name with another kind is passed over. */
  function FirstFuncSignature(exports: seq<Export>, name: string): (r: Option<FuncType>)
    ensures r.Some? <==> exists i :: 0 <= i < |exports| && IsFunctionExport(exports[i], name)
    ensures r.Some? ==> exists i :: (0 <= i < |exports| && exports[i] == Export(name, FunctionItem(r.value))
      && forall j :: 0 <= j < i ==> !IsFunctionExport(exports[j], name))
  {
    if |exports| == 0 then None
    else if IsFunctionExport(exports[0], name) then Some(exports[0].item.ty)
    else
      var r := FirstFuncSignature(exports[1..], name);
      assert forall i :: 1 <= i < |exports| ==> exports[i] == exports[1..][i - 1];
      r
  }

  /** `get_export_func_signature`: the loop returns at the first function
      export with the name. */
  method GetExportFuncSignature(m: WasmModule, name: string) returns (r: Option<FuncType>)
    ensures r == FirstFuncSignature(m.exports, name)
    ensures r.Some? <==> HasFunctionExport(m, name)
  {
    var i := 0;
    while i < |m.exports|
      invariant 0 <= i <= |m.exports|
      invariant FirstFuncSignature(m.exports[i..], name) == FirstFuncSignature(m.exports, name)
    {
      var e := m.exports[i];
      assert m.exports[i..][1..] == m.exports[i + 1..];
      if e.name == name {
        if e.item.FunctionItem? {
          return Some(e.item.ty);
        }
      }
      i := i + 1;
    }
    return None;
  }

  /** The named function export exists and has exactly this type. */
  predicate HasSignature(m: WasmModule, name: string, params: seq<ValType>, results: seq<ValType>)
  {
    FirstFuncSignature(m.exports, name) == Some(FuncType(params, results))
  }

  /** The six signature tests: `__new` (i32, i32) -> i32, `__pin`
      i32 -> i32, `__unpin` i32 -> (), `__collect` () -> (), `abort`
      four i32 -> (), and the handler i32 -> (). */
  predicate SignaturesOk(m: WasmModule, handler: string)
  {
    && HasSignature(m, "__new", [I32, I32], [I32])
    && HasSignature(m, "__pin", [I32], [I32])
    && HasSignature(m, "__unpin", [I32], [])
    && HasSignature(m, "__collect", [], [])
    && HasSignature(m, "abort", [I32, I32, I32, I32], [])
    && HasSignature(m, handler, [I32], [])
  }

  /** Passing the signature tests implies passing the export tests for the
      five runtime functions and the handler. */
  lemma SignaturesImplyFunctionExports(m: WasmModule, handler: string)
    requires SignaturesOk(m, handler)
    ensures HasFunctionExport(m, "__new") && HasFunctionExport(m, "__pin")
    ensures HasFunctionExport(m, "__unpin") && HasFunctionExport(m, "__collect")
    ensures HasFunctionExport(m, "abort") && HasFunctionExport(m, handler)
  {
  }

  /** Import modules graph-node provides. */
  const ALLOWED_IMPORT_MODULES: seq<string> := [
    "env", "ethereum", "store", "typeConversion", "bigInt", "bigDecimal",
    "json", "crypto", "ipfs", "log", "dataSource", "index"]

  predicate ImportsAllowed(m: WasmModule)
  {
    forall i :: 0 <= i < |m.imports| ==> m.imports[i].moduleName in ALLOWED_IMPORT_MODULES
  }

  predicate NoWasiImports(m: WasmModule)
  {
    forall i :: 0 <= i < |m.imports| ==> !StartsWith(m.imports[i].moduleName, "wasi")
  }

  /** No allowed module name starts with "wasi": none even starts with
      'w'. */
  lemma AllowedModulesAreNotWasi()
    ensures forall n :: n in ALLOWED_IMPORT_MODULES ==> !StartsWith(n, "wasi")
  {
    forall i | 0 <= i < |ALLOWED_IMPORT_MODULES|
      ensures ALLOWED_IMPORT_MODULES[i][0] != 'w'
    {
    }
  }

  /** So the allow-list test subsumes the WASI test. */
  lemma AllowedImportsAreNotWasi(m: WasmModule)
    requires ImportsAllowed(m)
    ensures NoWasiImports(m)
  {
    AllowedModulesAreNotWasi();
  }

  /** The memory exports, in export order. */
  function MemoryExports(exports: seq<Export>): (r: seq<Export>)
    ensures |r| <= |exports|
    ensures forall e :: e in r <==> e in exports && e.item.MemoryItem?
  {
    if |exports| == 0 then []
    else (if exports[0].item.MemoryItem? then [exports[0]] else []) + MemoryExports(exports[1..])
  }

  /** `test_single_memory` and `test_memory_is_exported`. */
  predicate MemoryLayoutOk(m: WasmModule)
  {
    m.memories == 1 && |MemoryExports(m.exports)| == 1 && MemoryExports(m.exports)[0].name == "memory"
  }

  /** Then "memory" is a memory export, and every memory export is it. */
  lemma MemoryLayoutExportsMemory(m: WasmModule)
    requires MemoryLayoutOk(m)
    ensures HasMemoryExport(m, "memory")
    ensures forall e :: e in m.exports && e.item.MemoryItem? ==> e == MemoryExports(m.exports)[0]
  {
    var mem := MemoryExports(m.exports)[0];
    assert mem in MemoryExports(m.exports);
    var i :| 0 <= i < |m.exports| && m.exports[i] == mem;
    forall e | e in m.exports && e.item.MemoryItem? ensures e == mem {
      assert e in MemoryExports(m.exports);
    }
  }

  /** `test_wasm_size_under_limit`: whole kibibytes below 100. */
  predicate SizeUnderLimit(m: WasmModule)
  {
    m.byteLength / 1024 < 100
  }

  lemma SizeLimitInBytes(m: WasmModule)
    ensures SizeUnderLimit(m) <==> m.byteLength < 102400
  {
  }

  /** `test_no_start_function`. */
  predicate NoStartFunction(m: WasmModule)
  {
    !m.hasStart
  }

  /** The summary test's required exports: the validate list plus
      `abort`. */
  const FULL_REQUIRED: seq<string> := ["memory", "__new", "__pin", "__unpin", "__collect", "abort"]

  /** A handler for the summary test: a function export that is not
      required and has no "__" prefix. */
  predicate IsFullHandler(e: Export)
  {
    e.item.FunctionItem? && e.name !in FULL_REQUIRED && !StartsWith(e.name, "__")
  }

  function FullHandlers(exports: seq<Export>): (r: seq<Export>)
    ensures |r| <= |exports|
    ensures forall e :: e in r <==> e in exports && IsFullHandler(e)
  {
    if |exports| == 0 then []
    else (if IsFullHandler(exports[0]) then [exports[0]] else []) + FullHandlers(exports[1..])
  }

  predicate FullPasses(m: WasmModule)
  {
    (forall n :: n in FULL_REQUIRED ==> HasExportNamed(m, n)) && |FullHandlers(m.exports)| > 0
  }

  /** The summary test's loop: the names no export carries, in order. */
  method CollectMissing(names: seq<string>, m: WasmModule) returns (missing: seq<string>)
    ensures missing == Absent(names, m)
  {
    missing := [];
    var i := 0;
    while i < |names|
      invariant 0 <= i <= |names|
      invariant missing + Absent(names[i..], m) == Absent(names, m)
    {
      var name := names[i];
      assert names[i..][1..] == names[i + 1..];
      if !HasExportNamed(m, name) {
        assert Absent(names[i..], m) == [name] + Absent(names[i + 1..], m);
        missing := missing + [name];
      } else {
        assert Absent(names[i..], m) == Absent(names[i + 1..], m);
      }
      i := i + 1;
    }
  }

  /** `test_full_compatibility_check`: fails on the first missing required
      export, then when no handler is exported; otherwise gives the number
      of handlers. */
  method FullCompatibilityCheck(m: WasmModule) returns (r: Result<nat>)
    ensures r.Ok? <==> FullPasses(m)
    ensures r.Ok? ==> r.value == |FullHandlers(m.exports)|
    ensures r.Err? && |Absent(FULL_REQUIRED, m)| > 0 ==>
      r.message == "Missing required exports: " + DebugList(Absent(FULL_REQUIRED, m))
    ensures r.Err? && |Absent(FULL_REQUIRED, m)| == 0 ==>
      r.message == "No handler exports found. Subgraph needs at least one handler."
  {
    var missing := CollectMissing(FULL_REQUIRED, m);
    PresentAbsentMembers(FULL_REQUIRED, m);
    if |missing| != 0 {
      assert missing[0] in Absent(FULL_REQUIRED, m);
      return Err("Missing required exports: " + DebugList(missing));
    }
    var handlerCount := |FullHandlers(m.exports)|;
    if handlerCount == 0 {
      return Err("No handler exports found. Subgraph needs at least one handler.");
    }
    return Ok(handlerCount);
  }

  /** Every module the summary test accepts passes `yogurt validate`. */
  lemma FullCheckImpliesValidate(m: WasmModule)
    requires FullPasses(m)
    ensures Validate.Passes(m)
  {
    forall n | n in Validate.REQUIRED_EXPORTS ensures HasExportNamed(m, n) {
      assert n in FULL_REQUIRED;
    }
  }

  /** The converse fails: take any module the summary test accepts and drop
      its `abort` export; validate still passes, the summary test does
      not. */
  lemma ValidateMissesAbort(m: WasmModule)
    requires FullPasses(m)
    ensures Validate.Passes(WithoutExport(m, "abort"))
    ensures !FullPasses(WithoutExport(m, "abort"))
  {
    FullCheckImpliesValidate(m);
    Validate.AbortNotChecked(m);
    assert "abort" in FULL_REQUIRED;
  }
}

/** `yogurt validate`: checks that a compiled module exports what
    graph-node calls into, and lists the handler exports. Reading the file
    and parsing the binary are not modelled; the command starts here from
    the parsed module. */
module Validate {
  import opened Wrappers
  import opened Wasm

  /** The exports the command requires. `abort` is not among them. */
  const REQUIRED_EXPORTS: seq<string> := ["memory", "__new", "__pin", "__unpin", "__collect"]

  /** Validation passes: every required name is exported, of any kind. */
  predicate Passes(m: WasmModule)
  {
    forall n :: n in REQUIRED_EXPORTS ==> HasExportNamed(m, n)
  }

  /** A handler: not required, no "__" prefix, not "memory". */
  predicate IsHandlerName(name: string)
  {
    name !in REQUIRED_EXPORTS && !StartsWith(name, "__") && name != "memory"
  }

  /** The handler exports, in export order. */
  function Handlers(exports: seq<Export>): seq<Export>
  {
    if |exports| == 0 then []
    else (if IsHandlerName(exports[0].name) then [exports[0]] else []) + Handlers(exports[1..])
  }

  /** Handlers are exactly the exports whose names pass the filter. */
  lemma {:induction false} HandlersMembers(exports: seq<Export>)
    ensures |Handlers(exports)| <= |exports|
    ensures forall e :: e in Handlers(exports) <==> e in exports && IsHandlerName(e.name)
  {
    if |exports| > 0 {
      assert exports == [exports[0]] + exports[1..];
      HandlersMembers(exports[1..]);
    }
  }

  /** What the command reports besides its verdict. */
  datatype Report = Report(found: seq<string>, missing: seq<string>, handlers: seq<Export>)

  /** The loop of `run` over the required names: each goes to `found`
      when some export carries it and to `missing` otherwise. */
  method PartitionRequired(names: seq<string>, m: WasmModule) returns (found: seq<string>, missing: seq<string>)
    ensures found == Present(names, m)
    ensures missing == Absent(names, m)
  {
    missing := [];
    found := [];
    var i := 0;
    while i < |names|
      invariant 0 <= i <= |names|
      invariant found + Present(names[i..], m) == Present(names, m)
      invariant missing + Absent(names[i..], m) == Absent(names, m)
    {
      var name := names[i];
      assert names[i..][1..] == names[i + 1..];
      if HasExportNamed(m, name) {
        assert Present(names[i..], m) == [name] + Present(names[i + 1..], m);
        assert Absent(names[i..], m) == Absent(names[i + 1..], m);
        found := found + [name];
      } else {
        assert Present(names[i..], m) == Present(names[i + 1..], m);
        assert Absent(names[i..], m) == [name] + Absent(names[i + 1..], m);
        missing := missing + [name];
      }
      i := i + 1;
    }
  }

  /** `validate::run` on a parsed module: partition the required names into
      found and missing, collect the handlers (an empty list only draws a
      warning), and fail exactly when something is missing. */
  method Run(m: WasmModule) returns (report: Report, r: Result<()>)
    ensures report.found == Present(REQUIRED_EXPORTS, m)
    ensures report.missing == Absent(REQUIRED_EXPORTS, m)
    ensures report.handlers == Handlers(m.exports)
    ensures r.Ok? <==> Passes(m)
    ensures r.Err? ==> r.message == "Missing required exports: " + DebugList(report.missing)
  {
    var found, missing := PartitionRequired(REQUIRED_EXPORTS, m);
    PresentAbsentMembers(REQUIRED_EXPORTS, m);
    var handlers := Handlers(m.exports);
    report := Report(found, missing, handlers);
    if |missing| == 0 {
      r := Ok(());
    } else {
      assert missing[0] in Absent(REQUIRED_EXPORTS, m);
      r := Err("Missing required exports: " + DebugList(missing));
    }
  }

  /** Removing every `abort` export never turns a pass into a failure. */
  lemma AbortNotChecked(m: WasmModule)
    requires Passes(m)
    ensures Passes(WithoutExport(m, "abort"))
  {
    assert "abort" !in REQUIRED_EXPORTS;
  }

  /** The five runtime exports and nothing else. */
  function RuntimeOnly(): WasmModule
  {
    var f := FunctionItem(FuncType([], []));
    WasmModule(
      [Export("memory", MemoryItem), Export("__new", f), Export("__pin", f),
       Export("__unpin", f), Export("__collect", f)],
      [], 1, false, 0)
  }

  /** The runtime-only module has no handler exports ... */
  lemma RuntimeOnlyHasNoHandlers()
    ensures Handlers(RuntimeOnly().exports) == []
  {
    var es := RuntimeOnly().exports;
    forall e | e in es ensures !IsHandlerName(e.name) {
      assert e.name in REQUIRED_EXPORTS;
    }
    HandlersMembers(es);
  }

  /** ... and still passes: an empty handler list only warns. */
  lemma NoHandlersStillPasses()
    ensures Handlers(RuntimeOnly().exports) == []
    ensures Passes(RuntimeOnly())
  {
    RuntimeOnlyHasNoHandlers();
    var m := RuntimeOnly();
    forall n | n in REQUIRED_EXPORTS ensures HasExportNamed(m, n) {
      var k :| 0 <= k < 5 && REQUIRED_EXPORTS[k] == n;
      assert m.exports[k].name == n;
    }
  }
}

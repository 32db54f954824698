/** The parts of a compiled WebAssembly module that `yogurt validate` and
    the binary compatibility checks look at: the exports with their kinds
    and function types, the imports, the number of memories, whether a
    start function is set, and the size of the binary. */
module Wasm {
  import opened Wrappers

  datatype ValType = I32 | I64 | F32 | F64 | V128 | Ref

  datatype FuncType = FuncType(params: seq<ValType>, results: seq<ValType>)

  /** What an export refers to; only functions carry a type. */
  datatype ExportItem = FunctionItem(ty: FuncType) | TableItem | MemoryItem | GlobalItem

  datatype Export = Export(name: string, item: ExportItem)

  datatype Import = Import(moduleName: string, name: string)

  datatype WasmModule = WasmModule(
    exports: seq<Export>,
    imports: seq<Import>,
    memories: nat,
    hasStart: bool,
    byteLength: nat)

  predicate StartsWith(s: string, prefix: string)
  {
    |prefix| <= |s| && s[..|prefix|] == prefix
  }

  /** `exports.iter().any(|e| e.name == name)`: an export of any kind. */
  predicate HasExportNamed(m: WasmModule, name: string)
  {
    exists i :: 0 <= i < |m.exports| && m.exports[i].name == name
  }

  /** The names of `names` that some export carries, in list order. */
  function Present(names: seq<string>, m: WasmModule): seq<string>
  {
    if |names| == 0 then []
    else (if HasExportNamed(m, names[0]) then [names[0]] else []) + Present(names[1..], m)
  }

  /** The names of `names` that no export carries, in list order. */
  function Absent(names: seq<string>, m: WasmModule): seq<string>
  {
    if |names| == 0 then []
    else (if HasExportNamed(m, names[0]) then [] else [names[0]]) + Absent(names[1..], m)
  }

  /** A name is found iff it is listed and exported, and missing iff it is
      listed and not exported. */
  lemma {:induction false} PresentAbsentMembers(names: seq<string>, m: WasmModule)
    ensures forall n :: n in Present(names, m) <==> n in names && HasExportNamed(m, n)
    ensures forall n :: n in Absent(names, m) <==> n in names && !HasExportNamed(m, n)
  {
    if |names| > 0 {
      assert names == [names[0]] + names[1..];
      PresentAbsentMembers(names[1..], m);
    }
  }

  /** Every name lands in exactly one of the two lists. */
  lemma {:induction false} PresentAbsentPartition(names: seq<string>, m: WasmModule)
    ensures |Present(names, m)| + |Absent(names, m)| == |names|
    ensures multiset(Present(names, m)) + multiset(Absent(names, m)) == multiset(names)
  {
    if |names| > 0 {
      assert names == [names[0]] + names[1..];
      PresentAbsentPartition(names[1..], m);
    }
  }

  /** The same module without any export of the given name. */
  function WithoutExport(m: WasmModule, name: string): (r: WasmModule)
    ensures forall n :: n != name ==> (HasExportNamed(r, n) <==> HasExportNamed(m, n))
    ensures !HasExportNamed(r, name)
  {
    var kept := FilterOutName(m.exports, name);
    m.(exports := kept)
  }

  /** The exports not named `name`, in order. */
  function FilterOutName(es: seq<Export>, name: string): (r: seq<Export>)
    ensures forall e :: e in r <==> e in es && e.name != name
  {
    if |es| == 0 then []
    else (if es[0].name == name then [] else [es[0]]) + FilterOutName(es[1..], name)
  }

  /** `{:?}` of a list of names: `["a", "b"]`. */
  function DebugList(names: seq<string>): string
  {
    "[" + DebugItems(names) + "]"
  }

  function DebugItems(names: seq<string>): string
  {
    if |names| == 0 then ""
    else if |names| == 1 then "\"" + names[0] + "\""
    else "\"" + names[0] + "\", " + DebugItems(names[1..])
  }
}

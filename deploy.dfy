/** `resolve_manifest` from `yogurt deploy`: before the manifest goes to
    graph-node, every local file it names (the schema, each data source's
    and template's ABI files and mapping file) is replaced by the IPFS path
    of the file uploaded for it. The manifest is a YAML value; the upload
    table maps a local path to its IPFS hash. */
module Deploy {
  import opened Wrappers

  /** A YAML value. Mapping keys are strings here; a lookup by name only
      ever finds string keys. */
  datatype Yaml =
    | YNull
    | YBool(b: bool)
    | YNumber(n: int)
    | YString(str: string)
    | YSeq(items: seq<Yaml>)
    | YMap(fields: map<string, Yaml>)

  /** The `to_ipfs_path` closure: "/ipfs/<hash>" for an uploaded path, the
      path itself otherwise. */
  function ToIpfsPath(table: map<string, string>, path: string): string
  {
    if path in table then "/ipfs/" + table[path] else path
  }

  /** The string held under key in v, when v is a mapping and holds one. */
  predicate HasStringAt(v: Yaml, key: string)
  {
    v.YMap? && key in v.fields && v.fields[key].YString?
  }

  /** `if let Some(file) = v.get_mut("file") { if let Some(path) =
      file.as_str() { *file = String(to_ipfs_path(path)) } }`. */
  function RewriteFile(v: Yaml, table: map<string, string>): Yaml
  {
    if HasStringAt(v, "file") then YMap(v.fields["file" := YString(ToIpfsPath(table, v.fields["file"].str))])
    else v
  }

  /** Each entry of a sequence with its "file" rewritten. */
  function RewriteFiles(items: seq<Yaml>, table: map<string, string>): (r: seq<Yaml>)
    ensures |r| == |items|
    ensures forall i :: 0 <= i < |items| ==> r[i] == RewriteFile(items[i], table)
  {
    seq(|items|, i requires 0 <= i < |items| => RewriteFile(items[i], table))
  }

  /** A mapping section: its "abis" entries' files, then its own "file". */
  function RewriteMapping(mapping: Yaml, table: map<string, string>): Yaml
  {
    var withAbis :=
      if mapping.YMap? && "abis" in mapping.fields && mapping.fields["abis"].YSeq? then
        YMap(mapping.fields["abis" := YSeq(RewriteFiles(mapping.fields["abis"].items, table))])
      else mapping;
    RewriteFile(withAbis, table)
  }

  /** A data source or template: its "mapping" section rewritten. */
  function RewriteSource(source: Yaml, table: map<string, string>): Yaml
  {
    if source.YMap? && "mapping" in source.fields then
      YMap(source.fields["mapping" := RewriteMapping(source.fields["mapping"], table)])
    else source
  }

  /** The sources under key, when the manifest holds a sequence there. */
  function RewriteSources(manifest: Yaml, key: string, table: map<string, string>): Yaml
  {
    if manifest.YMap? && key in manifest.fields && manifest.fields[key].YSeq? then
      var items := manifest.fields[key].items;
      YMap(manifest.fields[key := YSeq(seq(|items|, i requires 0 <= i < |items| => RewriteSource(items[i], table)))])
    else manifest
  }

  /** The schema section's "file". */
  function RewriteSchema(manifest: Yaml, table: map<string, string>): Yaml
  {
    if manifest.YMap? && "schema" in manifest.fields then
      YMap(manifest.fields["schema" := RewriteFile(manifest.fields["schema"], table)])
    else manifest
  }

  /** The whole rewrite: schema, then data sources, then templates. */
  function Resolve(manifest: Yaml, table: map<string, string>): Yaml
  {
    RewriteSources(RewriteSources(RewriteSchema(manifest, table), "dataSources", table), "templates", table)
  }

  // ---------------------------------------------------------------------
  // The imperative rewrite
  // ---------------------------------------------------------------------

  /** The loop over `abi_seq`, rewriting each element in place. */
  method ResolveAbis(abis: seq<Yaml>, table: map<string, string>) returns (out: seq<Yaml>)
    ensures out == RewriteFiles(abis, table)
  {
    out := abis;
    var i := 0;
    while i < |out|
      invariant 0 <= i <= |out| == |abis|
      invariant forall j :: 0 <= j < i ==> out[j] == RewriteFile(abis[j], table)
      invariant forall j :: i <= j < |out| ==> out[j] == abis[j]
    {
      var abi := out[i];
      if abi.YMap? && "file" in abi.fields {
        var file := abi.fields["file"];
        if file.YString? {
          out := out[i := YMap(abi.fields["file" := YString(ToIpfsPath(table, file.str))])];
        }
      }
      i := i + 1;
    }
  }

  /** The body of the loop over data sources (or templates). */
  method ResolveSource(source: Yaml, table: map<string, string>) returns (out: Yaml)
    ensures out == RewriteSource(source, table)
  {
    out := source;
    if source.YMap? && "mapping" in source.fields {
      var mapping := source.fields["mapping"];
      if mapping.YMap? && "abis" in mapping.fields {
        var abis := mapping.fields["abis"];
        if abis.YSeq? {
          var items := ResolveAbis(abis.items, table);
          mapping := YMap(mapping.fields["abis" := YSeq(items)]);
        }
      }
      if mapping.YMap? && "file" in mapping.fields {
        var file := mapping.fields["file"];
        if file.YString? {
          mapping := YMap(mapping.fields["file" := YString(ToIpfsPath(table, file.str))]);
        }
      }
      out := YMap(source.fields["mapping" := mapping]);
    }
  }

  /** The loop over the sequence under key, rewriting each source in
      place. */
  method ResolveSources(manifest: Yaml, key: string, table: map<string, string>) returns (out: Yaml)
    ensures out == RewriteSources(manifest, key, table)
  {
    out := manifest;
    if manifest.YMap? && key in manifest.fields {
      var section := manifest.fields[key];
      if section.YSeq? {
        var items := section.items;
        var i := 0;
        while i < |items|
          invariant 0 <= i <= |items| == |section.items|
          invariant forall j :: 0 <= j < i ==> items[j] == RewriteSource(section.items[j], table)
          invariant forall j :: i <= j < |items| ==> items[j] == section.items[j]
        {
          var source := ResolveSource(items[i], table);
          items := items[i := source];
          i := i + 1;
        }
        assert items == seq(|section.items|, j requires 0 <= j < |section.items| => RewriteSource(section.items[j], table));
        out := YMap(manifest.fields[key := YSeq(items)]);
      }
    }
  }

  /** `resolve_manifest`: a copy of the manifest with the schema, data
      source and template files rewritten; it never fails. */
  method ResolveManifest(manifest: Yaml, table: map<string, string>) returns (r: Result<Yaml>)
    ensures r == Ok(Resolve(manifest, table))
  {
    var resolved := manifest;
    if resolved.YMap? && "schema" in resolved.fields {
      var schema := resolved.fields["schema"];
      if schema.YMap? && "file" in schema.fields {
        var file := schema.fields["file"];
        if file.YString? {
          schema := YMap(schema.fields["file" := YString(ToIpfsPath(table, file.str))]);
        }
      }
      resolved := YMap(resolved.fields["schema" := schema]);
    }
    resolved := ResolveSources(resolved, "dataSources", table);
    resolved := ResolveSources(resolved, "templates", table);
    return Ok(resolved);
  }

  // ---------------------------------------------------------------------
  // What the rewrite does
  // ---------------------------------------------------------------------

  /** The manifest keeps its keys, and every key other than "schema",
      "dataSources" and "templates" keeps its value. */
  lemma ResolveKeepsOtherKeys(manifest: Yaml, table: map<string, string>)
    requires manifest.YMap?
    ensures Resolve(manifest, table).YMap?
    ensures Resolve(manifest, table).fields.Keys == manifest.fields.Keys
    ensures forall k :: k in manifest.fields && k !in {"schema", "dataSources", "templates"} ==>
      Resolve(manifest, table).fields[k] == manifest.fields[k]
  {
  }

  /** A string `schema.file` becomes its IPFS path. */
  lemma ResolveSchemaFile(manifest: Yaml, table: map<string, string>)
    requires manifest.YMap? && "schema" in manifest.fields
    requires HasStringAt(manifest.fields["schema"], "file")
    ensures HasStringAt(Resolve(manifest, table).fields["schema"], "file")
    ensures Resolve(manifest, table).fields["schema"].fields["file"].str ==
      ToIpfsPath(table, manifest.fields["schema"].fields["file"].str)
  {
    var s1 := RewriteSchema(manifest, table);
    var s2 := RewriteSources(s1, "dataSources", table);
    assert s2.fields["schema"] == s1.fields["schema"];
  }

  /** What a rewritten source holds: a string `mapping.file` and every
      string `mapping.abis[j].file` become IPFS paths; a mapping without
      them is left alone. */
  lemma RewriteSourceFiles(source: Yaml, table: map<string, string>)
    requires source.YMap? && "mapping" in source.fields
    ensures var mapping := source.fields["mapping"];
      var out := RewriteSource(source, table).fields["mapping"];
      && (HasStringAt(mapping, "file") ==>
            HasStringAt(out, "file") && out.fields["file"].str == ToIpfsPath(table, mapping.fields["file"].str))
      && (mapping.YMap? && "abis" in mapping.fields && mapping.fields["abis"].YSeq? ==>
            && out.YMap? && "abis" in out.fields && out.fields["abis"].YSeq?
            && |out.fields["abis"].items| == |mapping.fields["abis"].items|
            && forall j :: 0 <= j < |mapping.fields["abis"].items| ==>
                 out.fields["abis"].items[j] == RewriteFile(mapping.fields["abis"].items[j], table))
      && (!mapping.YMap? ==> out == mapping)
  {
  }

  /** Every data source is rewritten by `RewriteSource`, in place. */
  lemma ResolveDataSources(manifest: Yaml, table: map<string, string>)
    requires manifest.YMap? && "dataSources" in manifest.fields && manifest.fields["dataSources"].YSeq?
    ensures var out := Resolve(manifest, table).fields["dataSources"];
      var items := manifest.fields["dataSources"].items;
      && out.YSeq? && |out.items| == |items|
      && forall i :: 0 <= i < |items| ==> out.items[i] == RewriteSource(items[i], table)
  {
    var s1 := RewriteSchema(manifest, table);
    assert s1.fields["dataSources"] == manifest.fields["dataSources"];
    var s2 := RewriteSources(s1, "dataSources", table);
    assert Resolve(manifest, table).fields["dataSources"] == s2.fields["dataSources"];
  }

  /** Every template is rewritten the same way. */
  lemma ResolveTemplates(manifest: Yaml, table: map<string, string>)
    requires manifest.YMap? && "templates" in manifest.fields && manifest.fields["templates"].YSeq?
    ensures var out := Resolve(manifest, table).fields["templates"];
      var items := manifest.fields["templates"].items;
      && out.YSeq? && |out.items| == |items|
      && forall i :: 0 <= i < |items| ==> out.items[i] == RewriteSource(items[i], table)
  {
    var s1 := RewriteSchema(manifest, table);
    var s2 := RewriteSources(s1, "dataSources", table);
    assert s2.fields["templates"] == manifest.fields["templates"];
  }

  /** A file value that is not a string is left as it is. */
  lemma NonStringFileKept(v: Yaml, table: map<string, string>)
    requires v.YMap? && "file" in v.fields && !v.fields["file"].YString?
    ensures RewriteFile(v, table) == v
  {
  }

  /** With nothing uploaded, the manifest comes back unchanged. */
  lemma {:induction false} ResolveEmptyTableIsIdentity(manifest: Yaml)
    ensures Resolve(manifest, map[]) == manifest
  {
    var t: map<string, string> := map[];
    forall v: Yaml ensures RewriteFile(v, t) == v {
      if HasStringAt(v, "file") {
        assert v.fields["file" := YString(v.fields["file"].str)] == v.fields;
      }
    }
    forall items: seq<Yaml> ensures RewriteFiles(items, t) == items { }
    forall mapping: Yaml ensures RewriteMapping(mapping, t) == mapping {
      if mapping.YMap? && "abis" in mapping.fields && mapping.fields["abis"].YSeq? {
        assert mapping.fields["abis" := YSeq(mapping.fields["abis"].items)] == mapping.fields;
      }
    }
    forall source: Yaml ensures RewriteSource(source, t) == source {
      if source.YMap? && "mapping" in source.fields {
        assert source.fields["mapping" := source.fields["mapping"]] == source.fields;
      }
    }
    forall v: Yaml, key: string ensures RewriteSources(v, key, t) == v {
      if v.YMap? && key in v.fields && v.fields[key].YSeq? {
        var items := v.fields[key].items;
        assert seq(|items|, i requires 0 <= i < |items| => RewriteSource(items[i], t)) == items;
        assert v.fields[key := YSeq(items)] == v.fields;
      }
    }
    if manifest.YMap? && "schema" in manifest.fields {
      assert manifest.fields["schema" := manifest.fields["schema"]] == manifest.fields;
    }
  }
}

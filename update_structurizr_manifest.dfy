/**
 * The Structurizr workspace manifest: the export formats given as one
 * comma-separated option, normalised to a sorted set, and the five-key
 * record written next to the workspace.
 */
module StructurizrManifest {
  import opened Wrappers
  import opened Str
  import opened Values
  import Seqs
  import Lex

  predicate NonEmpty(s: string) { s != [] }

  /** The comma-separated fragments of the option, each stripped. */
  function Fragments(raw: string): seq<string>
  {
    Seqs.Map(Split(raw, ','), Strip)
  }

  /** `_normalise_formats`: the set of trimmed, non-empty comma-separated fragments, ascending. */
  function NormaliseFormats(raw: string): (r: seq<string>)
  {
    Lex.SortStrings(Seqs.Dedup(Seqs.Filter(Fragments(raw), NonEmpty)))
  }

  /** The formats come out in strictly ascending order: sorted, and no format twice. */
  lemma FormatsAscending(raw: string)
    ensures Lex.SortedStrings(NormaliseFormats(raw))
    ensures Seqs.Distinct(NormaliseFormats(raw))
  {
    var d := Seqs.Dedup(Seqs.Filter(Fragments(raw), NonEmpty));
    Seqs.DistinctPermuted(d, NormaliseFormats(raw));
  }

  /** A format is listed exactly when some fragment of the option strips to it and is not empty. */
  lemma FormatsMembers(raw: string, x: string)
    ensures x in NormaliseFormats(raw) <==> x != [] && exists f :: f in Split(raw, ',') && Strip(f) == x
  {
    var fs := Fragments(raw);
    var kept := Seqs.Filter(fs, NonEmpty);
    var d := Seqs.Dedup(kept);
    Lex.SortMembers(d, x);
    assert x in d <==> x in kept;
    assert x in kept <==> x in fs && NonEmpty(x);
    Seqs.MapMembers(Split(raw, ','), Strip, x);
  }

  /** Every listed format is non-empty, free of surrounding whitespace and of commas. */
  lemma FormatsTrimmed(raw: string)
    ensures forall k :: 0 <= k < |NormaliseFormats(raw)| ==>
      var x := NormaliseFormats(raw)[k];
      x != [] && Strip(x) == x && ',' !in x
  {
    var r := NormaliseFormats(raw);
    forall k | 0 <= k < |r| ensures r[k] != [] && Strip(r[k]) == r[k] && ',' !in r[k] {
      FormatsMembers(raw, r[k]);
      var f :| f in Split(raw, ',') && Strip(f) == r[k];
      StripOfStripped(f);
      StripAvoids(f, ',');
    }
  }

  /** Normalising the comma-joined result again gives it back unchanged. */
  lemma NormaliseIdempotent(raw: string)
    ensures NormaliseFormats(Join(NormaliseFormats(raw), ",")) == NormaliseFormats(raw)
  {
    FormatsAscending(raw);
    FormatsTrimmed(raw);
    NormaliseFixed(NormaliseFormats(raw));
  }

  /** An empty option names no format. */
  lemma NormaliseEmpty()
    ensures NormaliseFormats("") == []
  {
    assert Split("", ',') == [""];
    assert Fragments("") == [""];
    assert Seqs.Filter([""], NonEmpty) == [] by {
      assert [""][..0] == [];
    }
  }

  /** An ascending list of trimmed, non-empty formats without commas is its own normalisation. */
  lemma NormaliseFixed(r: seq<string>)
    requires Lex.SortedStrings(r) && Seqs.Distinct(r)
    requires forall k :: 0 <= k < |r| ==> r[k] != [] && Strip(r[k]) == r[k] && ',' !in r[k]
    ensures NormaliseFormats(Join(r, ",")) == r
  {
    if r == [] {
      NormaliseEmpty();
    } else {
      SplitOfJoin(r, ',');
      assert Fragments(Join(r, ",")) == r by {
        Seqs.MapFixed(r, Strip);
      }
      Seqs.FilterAll(r, NonEmpty);
      Seqs.DedupOfDistinct(r);
      Lex.SortedUnique(Lex.SortStrings(r), r);
    }
  }

  // ------------------------------------------------------------- manifest

  datatype ManifestError = WorkspaceNotFound(workspace: string)

  const ManifestKeys: seq<string> := ["workspace_path", "workspace_sha256", "export_formats", "export_directory", "generated_at"]

  function FormatValue(f: string): Value { VStr(f) }

  /** Keys paired with values in order. */
  function Entries(keys: seq<string>, values: seq<Value>): (r: seq<(string, Value)>)
    requires |keys| == |values|
    ensures |r| == |keys|
    ensures forall i :: 0 <= i < |keys| ==> r[i] == (keys[i], values[i])
  {
    if keys == [] then [] else [(keys[0], values[0])] + Entries(keys[1..], values[1..])
  }

  /** The record `main` writes as JSON. */
  datatype Manifest = Manifest(workspacePath: string, workspaceSha256: string, exportFormats: seq<string>,
                               exportDirectory: string, generatedAt: string)

  /**
   * `main`: the manifest for an existing workspace.  The digest and the
   * timestamp are inputs; the workspace and export paths are taken as given.
   */
  function BuildManifest(workspaceExists: bool, workspace: string, digest: string, formats: string,
                         outputDir: string, generatedAt: string): (r: Result<Manifest, ManifestError>)
    ensures r.Err? <==> !workspaceExists
    ensures r.Ok? ==> r.value.exportFormats == NormaliseFormats(formats)
  {
    if !workspaceExists then Err(WorkspaceNotFound(workspace))
    else Ok(Manifest(workspace, digest, NormaliseFormats(formats), outputDir, generatedAt))
  }

  /** The JSON object of a manifest: exactly the five keys, in this order. */
  function ManifestObject(m: Manifest): (r: Value)
    ensures r.VDict? && Keys(r.entries) == ManifestKeys
  {
    var values := [VStr(m.workspacePath), VStr(m.workspaceSha256), VList(Seqs.Map(m.exportFormats, FormatValue)),
                   VStr(m.exportDirectory), VStr(m.generatedAt)];
    var entries := Entries(ManifestKeys, values);
    assert Keys(entries) == ManifestKeys;
    VDict(entries)
  }

  /** The object lists the formats under `export_formats`. */
  lemma ObjectFormats(m: Manifest)
    ensures Get(ManifestObject(m), "export_formats") == Some(VList(Seqs.Map(m.exportFormats, FormatValue)))
  {
    var e := ManifestObject(m).entries;
    assert e[0].0 == "workspace_path" && e[1].0 == "workspace_sha256" && e[2].0 == "export_formats";
    assert "workspace_path"[0] != "export_formats"[0];
    assert "workspace_sha256"[0] != "export_formats"[0];
    assert e[2..][0] == e[2];
    assert e[1..][1..] == e[2..];
  }
}

/**
 * The `GcamConfig` object (gcam_config/gcam_config.py:50-143): a parsed
 * configuration document that its methods rewrite in place.  Each method is
 * specified by the document function of `ConfigDoc` it must agree with.
 */
module GcamConfig {
  import opened Maybe
  import ConfigDoc
  import PyStr
  import HashBytes
  import Fingerprint

  class Config {
    /** `self.config_file`: the path the document was read from. */
    const file: string
    /** `self.config_dir`: the absolute directory that holds it. */
    const dir: string
    /** `self.config_doc`. */
    var doc: ConfigDoc.Doc

    /** `__init__`, with the parsing done by the caller. */
    constructor (file: string, dir: string, doc: ConfigDoc.Doc)
      ensures this.file == file && this.dir == dir && this.doc == doc
    {
      this.file := file;
      this.dir := dir;
      this.doc := doc;
    }

    /** `deepcopy(config)`: a new object with an equal, unshared document. */
    method Copy() returns (c: Config)
      ensures fresh(c) && c.file == file && c.dir == dir && c.doc == doc
    {
      c := new Config(file, dir, doc);
    }

    method SetScenarioName(n: string)
      requires ConfigDoc.HasScenarioName(doc)
      modifies this
      ensures doc == ConfigDoc.SetScenarioName(old(doc), n)
    {
      var i := ConfigDoc.At(doc.strings, ConfigDoc.ScenarioNameKey);
      doc := doc.(strings := doc.strings[i := doc.strings[i].(text := Some(n))]);
    }

    method GetScenarioName() returns (n: Option<string>)
      requires ConfigDoc.HasScenarioName(doc)
      ensures n == ConfigDoc.ScenarioName(doc)
    {
      var i := ConfigDoc.At(doc.strings, ConfigDoc.ScenarioNameKey);
      n := doc.strings[i].text;
    }

    method SetMaxParallelism(m: int)
      requires ConfigDoc.Has(doc.ints, "max-parallelism")
      modifies this
      ensures doc == ConfigDoc.SetMaxParallelism(old(doc), m)
    {
      var i := ConfigDoc.At(doc.ints, "max-parallelism");
      doc := doc.(ints := doc.ints[i := doc.ints[i].(text := Some(PyStr.IntToString(m)))]);
    }

    method SetFile(name: string, write: Option<int>, append: Option<int>, path: Option<string>)
      requires ConfigDoc.CanSetFile(doc, name, write, append, path)
      modifies this
      ensures doc == ConfigDoc.SetFile(old(doc), name, write, append, path)
    {
      var found := ConfigDoc.Find(doc.files, name);
      if found.None? {
        return;
      }
      var i := found.value;
      var e := doc.files[i];
      if write.Some? {
        e := e.(attrs := e.attrs["write-output" := PyStr.IntToString(write.value)]);
      }
      if append.Some? {
        e := e.(attrs := e.attrs["append-scenario-name" := PyStr.IntToString(append.value)]);
      }
      if path.Some? {
        e := e.(text := path);
      }
      doc := doc.(files := doc.files[i := e]);
    }

    method SetXmldbOutput(write: Option<int>, append: Option<int>, path: Option<string>)
      requires ConfigDoc.CanSetFile(doc, "xmldb-location", write, append, path)
      modifies this
      ensures doc == ConfigDoc.SetFile(old(doc), "xmldb-location", write, append, path)
    {
      SetFile("xmldb-location", write, append, path);
    }

    method SetRestartOutput(write: Option<int>, append: Option<int>, path: Option<string>)
      requires ConfigDoc.CanSetFile(doc, "restart", write, append, path)
      modifies this
      ensures doc == ConfigDoc.SetFile(old(doc), "restart", write, append, path)
    {
      SetFile("restart", write, append, path);
    }

    method DisableOutputs()
      modifies this
      ensures doc == ConfigDoc.DisableOutputs(old(doc))
    {
      var i := 0;
      while i < |doc.files|
        invariant 0 <= i <= |doc.files| == |old(doc.files)|
        invariant doc == old(doc).(files := doc.files)
        invariant forall k :: 0 <= k < i ==> doc.files[k] == ConfigDoc.DisableEntry(old(doc.files)[k])
        invariant forall k :: i <= k < |doc.files| ==> doc.files[k] == old(doc.files)[k]
      {
        var f := doc.files[i];
        if "write-output" in f.attrs && f.attrs["write-output"] == "1" {
          doc := doc.(files := doc.files[i := f.(attrs := f.attrs["write-output" := "0"])]);
        }
        i := i + 1;
      }
    }

    method SetBatchMode(m: int)
      requires ConfigDoc.Has(doc.bools, "BatchMode")
      modifies this
      ensures doc == ConfigDoc.SetBatchMode(old(doc), m)
    {
      var i := ConfigDoc.At(doc.bools, "BatchMode");
      doc := doc.(bools := doc.bools[i := doc.bools[i].(text := Some(PyStr.IntToString(m)))]);
    }

    method SetTargetFinderMode(m: int, tf: Option<string>)
      requires ConfigDoc.CanSetTargetFinder(doc, tf)
      modifies this
      ensures doc == ConfigDoc.SetTargetFinderMode(old(doc), m, tf)
    {
      var i := ConfigDoc.At(doc.bools, "find-path");
      doc := doc.(bools := doc.bools[i := doc.bools[i].(text := Some(PyStr.IntToString(m)))]);
      if tf.Some? {
        ConfigDoc.FindIgnoresText(old(doc).files, doc.files, "policy-target-file");
        var j := ConfigDoc.At(doc.files, "policy-target-file");
        doc := doc.(files := doc.files[j := doc.files[j].(text := tf)]);
      }
    }

    method ClearScenarioComponents()
      modifies this
      ensures doc == ConfigDoc.ClearScenarioComponents(old(doc))
    {
      doc := doc.(components := []);
    }

    method AddScenarioComponents(comps: seq<ConfigDoc.Node>)
      modifies this
      ensures doc == ConfigDoc.AddScenarioComponents(old(doc), comps)
    {
      var i := 0;
      while i < |comps|
        invariant 0 <= i <= |comps|
        invariant doc == old(doc).(components := old(doc.components) + comps[..i])
      {
        doc := doc.(components := doc.components + [comps[i]]);
        assert comps[..i + 1] == comps[..i] + [comps[i]];
        i := i + 1;
      }
      assert comps[..i] == comps;
    }

    /** `change_base_input_path(new_base, fix_climate_xml=False)`. */
    method ChangeBaseInputPath(base: string)
      requires ConfigDoc.BasePathsPresent(doc)
      modifies this
      ensures doc == ConfigDoc.ChangeBaseInputPath(old(doc), base)
    {
      var i := 0;
      while i < |doc.files|
        invariant 0 <= i <= |doc.files| == |old(doc.files)|
        invariant doc == old(doc).(files := doc.files)
        invariant forall k :: 0 <= k < i ==> doc.files[k] == ConfigDoc.RebaseFile(old(doc.files)[k], base)
        invariant forall k :: i <= k < |doc.files| ==> doc.files[k] == old(doc.files)[k]
      {
        var f := doc.files[i];
        if ConfigDoc.IsBaseInput(f) {
          doc := doc.(files := doc.files[i := f.(text := Some(PyStr.ReplaceDotDot(f.text.value, base)))]);
        }
        i := i + 1;
      }
      var j := 0;
      while j < |doc.components|
        invariant 0 <= j <= |doc.components| == |old(doc.components)|
        invariant doc.files == ConfigDoc.ChangeBaseInputPath(old(doc), base).files
        invariant doc == old(doc).(files := doc.files, components := doc.components)
        invariant forall k :: 0 <= k < j ==> doc.components[k] == ConfigDoc.RebaseNode(old(doc.components)[k], base)
        invariant forall k :: j <= k < |doc.components| ==> doc.components[k] == old(doc.components)[k]
      {
        var c := doc.components[j];
        if c.Elem? && c.entry.tag == "Value" {
          var e := c.entry;
          doc := doc.(components := doc.components[j := ConfigDoc.Elem(e.(text := Some(PyStr.ReplaceDotDot(e.text.value, base))))]);
        }
        j := j + 1;
      }
    }

    /**
     * `__hash__`: the hasher's state is the sequence of bytes fed so far,
     * extended by one `x.update` per token.
     */
    method Hash(env: Fingerprint.Env, h: Fingerprint.Digests) returns (digest: Fingerprint.U32)
      requires Fingerprint.InputPresent(doc)
      ensures digest == Fingerprint.Digest(file, dir, doc, env, h)
    {
      var comps := doc.components;
      var fed := HashBytes.HashToBytes(h.file(file));
      Fingerprint.FedBytesOne(Fingerprint.FileTok(file), h);
      var i := 0;
      while i < |comps|
        invariant 0 <= i <= |comps|
        invariant fed == Fingerprint.FedBytes([Fingerprint.FileTok(file)] + Fingerprint.ComponentTokens(comps[..i], dir, env), h)
      {
        var chunk := FeedComponent(comps[i], dir, env, h);
        Fingerprint.HashStep(file, comps, i, dir, env, h);
        fed := fed + chunk;
        i := i + 1;
      }
      assert comps[..i] == comps;
      var input := doc.files[ConfigDoc.At(doc.files, "xmlInputFileName")];
      var inputPath := env.join(dir, input.text.value);
      var tail := HashBytes.HashToBytes(h.file(inputPath))
                  + HashBytes.HashToBytes(h.value(input.tag))
                  + HashBytes.HashToBytes(h.mapping(input.attrs));
      Fingerprint.FedBytesThree(Fingerprint.InputTokens(doc, dir, env), h);
      Fingerprint.FeedBytesSplit(file, dir, doc, env, h);
      fed := fed + tail;
      digest := h.xxh32(fed);
    }
  }

  /** One turn of the loop in `__hash__`: the bytes one scenario component feeds. */
  method FeedComponent(component: ConfigDoc.Node, dir: string, env: Fingerprint.Env, h: Fingerprint.Digests)
    returns (chunk: seq<HashBytes.Byte>)
    ensures chunk == Fingerprint.FedBytes(Fingerprint.NodeTokens(component, dir, env), h)
  {
    chunk := [];
    if component.Elem? {
      var e := component.entry;
      var content := FeedContent(e, dir, env, h);
      var tagBytes: seq<HashBytes.Byte> := [];
      if e.tag != "" {
        tagBytes := HashBytes.HashToBytes(h.value(e.tag));
        assert tagBytes == Fingerprint.Chunk(Fingerprint.ValueTok(e.tag), h);
      }
      var attrBytes: seq<HashBytes.Byte> := [];
      if e.attrs != map[] {
        attrBytes := HashBytes.HashToBytes(h.mapping(e.attrs));
        assert attrBytes == Fingerprint.Chunk(Fingerprint.AttrTok(e.attrs), h);
      }
      chunk := content + tagBytes + attrBytes;
      Fingerprint.EntryBytes(e, dir, env, h);
      assert Fingerprint.NodeTokens(component, dir, env) == Fingerprint.EntryTokens(e, dir, env);
    }
  }

  /** The content part of one turn: a file, a directory or a literal value, by what the path is. */
  method FeedContent(e: ConfigDoc.Entry, dir: string, env: Fingerprint.Env, h: Fingerprint.Digests)
    returns (chunk: seq<HashBytes.Byte>)
    ensures chunk == Fingerprint.FedBytes(Fingerprint.ContentTokens(e, dir, env), h)
  {
    chunk := [];
    if e.text.Some? && e.text.value != "" {
      var path := env.join(dir, e.text.value);
      var kind := env.kind(path);
      if kind != Fingerprint.Missing {
        if kind == Fingerprint.RegularFile {
          chunk := HashBytes.HashToBytes(h.file(path));
          Fingerprint.FedBytesOne(Fingerprint.FileTok(path), h);
        } else if kind == Fingerprint.Directory {
          chunk := HashBytes.HashToBytes(h.dir(path));
          Fingerprint.FedBytesOne(Fingerprint.DirTok(path), h);
        }
      } else {
        chunk := HashBytes.HashToBytes(h.value(e.text.value));
        Fingerprint.FedBytesOne(Fingerprint.ValueTok(e.text.value), h);
      }
    }
  }
}

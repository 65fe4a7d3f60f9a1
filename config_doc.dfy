/**
 * The configuration document as a value, and the edits the accessors of
 * `GcamConfig` make to it (gcam_config/gcam_config.py:88-143).
 *
 * Only the five sections the accessors address are modelled: `Bools`,
 * `Ints`, `Strings`, `Files` (sequences of elements) and
 * `ScenarioComponents` (elements and comments).  An entry is addressed by
 * its tag `Value` and its `name` attribute; as with ElementTree's `find`,
 * the first such entry in document order is the one that is read or written.
 */
module ConfigDoc {
  import opened Maybe
  import PyStr

  /** An element: tag, attributes, and text (`None` when the element has no text). */
  datatype Entry = Entry(tag: string, attrs: map<string, string>, text: Option<string>)

  /** A child of `ScenarioComponents`: an XML comment or an element. */
  datatype Node = Comment(body: string) | Elem(entry: Entry)

  datatype Doc = Doc(
    bools: seq<Entry>,
    ints: seq<Entry>,
    strings: seq<Entry>,
    files: seq<Entry>,
    components: seq<Node>)

  /** The XPath step `Value[@name='<name>']`. */
  predicate Named(e: Entry, name: string) {
    e.tag == "Value" && "name" in e.attrs && e.attrs["name"] == name
  }

  /** Position of the first entry matching `Value[@name='<name>']`, as `find` returns it. */
  function Find(s: seq<Entry>, name: string): (r: Option<nat>)
    ensures r.Some? ==> r.value < |s| && Named(s[r.value], name)
    ensures r.Some? ==> forall j :: 0 <= j < r.value ==> !Named(s[j], name)
    ensures r.None? ==> forall j :: 0 <= j < |s| ==> !Named(s[j], name)
  {
    if s == [] then None
    else if Named(s[0], name) then Some(0)
    else match Find(s[1..], name)
      case None => None
      case Some(i) => Some(i + 1)
  }

  predicate Has(s: seq<Entry>, name: string) {
    Find(s, name).Some?
  }

  function At(s: seq<Entry>, name: string): nat
    requires Has(s, name)
  {
    Find(s, name).value
  }

  /** The `.text` of the entry `find` returns. */
  function Text(s: seq<Entry>, name: string): Option<string>
    requires Has(s, name)
  {
    s[At(s, name)].text
  }

  /** A section with every text erased: all that lookup by name depends on. */
  function Shape(s: seq<Entry>): (r: seq<Entry>)
    ensures |r| == |s|
  {
    seq(|s|, i requires 0 <= i < |s| => s[i].(text := None))
  }

  /** Lookup by name does not depend on texts. */
  lemma {:induction false} FindIgnoresText(s: seq<Entry>, r: seq<Entry>, name: string)
    requires Shape(s) == Shape(r)
    ensures Find(s, name) == Find(r, name)
  {
    if s != [] {
      assert Shape(s)[0] == Shape(r)[0];
      assert Named(s[0], name) == Named(r[0], name);
      assert Shape(s[1..]) == Shape(s)[1..];
      assert Shape(r[1..]) == Shape(r)[1..];
      FindIgnoresText(s[1..], r[1..], name);
    }
  }

  /** `find(...).text = t` on one section. */
  function SetText(s: seq<Entry>, name: string, t: Option<string>): (r: seq<Entry>)
    requires Has(s, name)
    ensures Shape(r) == Shape(s)
  {
    s[At(s, name) := s[At(s, name)].(text := t)]
  }

  /**
   * After `SetText`, the entry written reads back `t`, every other name
   * reads back what it read before, and no entry but the one found changed.
   */
  lemma SetTextLookup(s: seq<Entry>, name: string, t: Option<string>, other: string)
    requires Has(s, name) && Has(s, other)
    ensures Has(SetText(s, name, t), name) && Has(SetText(s, name, t), other)
    ensures Text(SetText(s, name, t), name) == t
    ensures other != name ==> Text(SetText(s, name, t), other) == Text(s, other)
    ensures forall j :: 0 <= j < |s| && j != At(s, name) ==> SetText(s, name, t)[j] == s[j]
  {
    var r := SetText(s, name, t);
    FindIgnoresText(s, r, name);
    FindIgnoresText(s, r, other);
  }

  // ----- set_scenario_name / get_scenario_name (lines 88-94) -----

  const ScenarioNameKey := "scenarioName"

  predicate HasScenarioName(d: Doc) {
    Has(d.strings, ScenarioNameKey)
  }

  function ScenarioName(d: Doc): Option<string>
    requires HasScenarioName(d)
  {
    Text(d.strings, ScenarioNameKey)
  }

  function SetScenarioName(d: Doc, n: string): Doc
    requires HasScenarioName(d)
  {
    d.(strings := SetText(d.strings, ScenarioNameKey, Some(n)))
  }

  /** `get_scenario_name()` after `set_scenario_name(n)` returns `n`; only `Strings` changes. */
  lemma ScenarioNameRoundTrip(d: Doc, n: string)
    requires HasScenarioName(d)
    ensures HasScenarioName(SetScenarioName(d, n))
    ensures ScenarioName(SetScenarioName(d, n)) == Some(n)
    ensures SetScenarioName(d, n) == d.(strings := SetScenarioName(d, n).strings)
  {
    SetTextLookup(d.strings, ScenarioNameKey, Some(n), ScenarioNameKey);
  }

  // ----- set_max_parallelism (lines 96-98) -----

  function SetMaxParallelism(d: Doc, m: int): Doc
    requires Has(d.ints, "max-parallelism")
  {
    d.(ints := SetText(d.ints, "max-parallelism", Some(PyStr.IntToString(m))))
  }

  /**
   * Only the text of the `max-parallelism` entry changes, and it holds the
   * decimal form of `m`, which reads back as `m`.
   */
  lemma MaxParallelismEffect(d: Doc, m: int)
    requires Has(d.ints, "max-parallelism")
    ensures var r := SetMaxParallelism(d, m);
      && r == d.(ints := r.ints)
      && |r.ints| == |d.ints|
      && Has(r.ints, "max-parallelism")
      && Text(r.ints, "max-parallelism").Some?
      && PyStr.ParseInt(Text(r.ints, "max-parallelism").value) == Some(m)
      && r.ints[At(d.ints, "max-parallelism")] == d.ints[At(d.ints, "max-parallelism")].(text := r.ints[At(d.ints, "max-parallelism")].text)
      && (forall j :: 0 <= j < |d.ints| && j != At(d.ints, "max-parallelism") ==> r.ints[j] == d.ints[j])
  {
    SetTextLookup(d.ints, "max-parallelism", Some(PyStr.IntToString(m)), "max-parallelism");
    PyStr.IntToStringRoundTrip(m);
  }

  // ----- set_file, set_xmldb_output, set_restart_output (lines 100-113) -----

  /** The value of attribute `k`, or `None`, as `elem.get(k)` returns it. */
  function Attr(m: map<string, string>, k: string): Option<string> {
    if k in m then Some(m[k]) else None
  }

  /** `elem.set(key, str(v))` when `v` is not `None`. */
  function SetAttrIf(e: Entry, key: string, v: Option<int>): Entry {
    if v.Some? then e.(attrs := e.attrs[key := PyStr.IntToString(v.value)]) else e
  }

  /** `set_file` dereferences the entry `find` returns only when some argument is supplied. */
  predicate CanSetFile(d: Doc, name: string, write: Option<int>, append: Option<int>, path: Option<string>) {
    (write.Some? || append.Some? || path.Some?) ==> Has(d.files, name)
  }

  function SetFile(d: Doc, name: string, write: Option<int>, append: Option<int>, path: Option<string>): Doc
    requires CanSetFile(d, name, write, append, path)
  {
    if !Has(d.files, name) then d
    else
      var i := At(d.files, name);
      var e := SetAttrIf(SetAttrIf(d.files[i], "write-output", write), "append-scenario-name", append);
      d.(files := d.files[i := if path.Some? then e.(text := path) else e])
  }

  /**
   * `set_file` touches only the named entry of `Files`: its `write-output`
   * and `append-scenario-name` attributes and its text each change exactly
   * when the matching argument is supplied; everything else is unchanged.
   * With no argument supplied nothing changes, whether or not the entry
   * exists.
   */
  lemma SetFileEffect(d: Doc, name: string, write: Option<int>, append: Option<int>, path: Option<string>)
    requires CanSetFile(d, name, write, append, path)
    ensures write.None? && append.None? && path.None? ==> SetFile(d, name, write, append, path) == d
    ensures Has(d.files, name) ==> var r := SetFile(d, name, write, append, path);
      var i := At(d.files, name);
      && r == d.(files := r.files)
      && |r.files| == |d.files|
      && (forall j :: 0 <= j < |d.files| && j != i ==> r.files[j] == d.files[j])
      && r.files[i].tag == d.files[i].tag
      && r.files[i].text == (if path.Some? then path else d.files[i].text)
      && (forall k :: Attr(r.files[i].attrs, k) ==
            if k == "write-output" && write.Some? then Some(PyStr.IntToString(write.value))
            else if k == "append-scenario-name" && append.Some? then Some(PyStr.IntToString(append.value))
            else Attr(d.files[i].attrs, k))
  {
  }

  // ----- disable_outputs (lines 115-117) -----

  predicate WritesOutput(e: Entry) {
    Attr(e.attrs, "write-output") == Some("1")
  }

  function DisableEntry(e: Entry): Entry {
    if WritesOutput(e) then e.(attrs := e.attrs["write-output" := "0"]) else e
  }

  /** Every `Files` child with `write-output='1'` gets `write-output='0'`. */
  function DisableOutputs(d: Doc): Doc {
    d.(files := seq(|d.files|, i requires 0 <= i < |d.files| => DisableEntry(d.files[i])))
  }

  /**
   * Afterwards no `Files` child writes output; those that did now carry
   * `write-output='0'` with every other attribute, tag and text as before;
   * the others are untouched, and so are the other sections.
   */
  lemma DisableOutputsEffect(d: Doc)
    ensures var r := DisableOutputs(d);
      && r == d.(files := r.files)
      && |r.files| == |d.files|
      && (forall j :: 0 <= j < |r.files| ==> !WritesOutput(r.files[j]))
      && (forall j :: 0 <= j < |d.files| && WritesOutput(d.files[j]) ==>
            r.files[j].tag == d.files[j].tag && r.files[j].text == d.files[j].text &&
            Attr(r.files[j].attrs, "write-output") == Some("0") &&
            forall k :: k != "write-output" ==> Attr(r.files[j].attrs, k) == Attr(d.files[j].attrs, k))
      && (forall j :: 0 <= j < |d.files| && !WritesOutput(d.files[j]) ==> r.files[j] == d.files[j])
  {
  }

  /** `disable_outputs` is idempotent. */
  lemma DisableOutputsIdempotent(d: Doc)
    ensures DisableOutputs(DisableOutputs(d)) == DisableOutputs(d)
  {
    var r := DisableOutputs(d);
    assert DisableOutputs(r).files == r.files by {
      forall j | 0 <= j < |r.files|
        ensures DisableOutputs(r).files[j] == r.files[j]
      {
        assert !WritesOutput(r.files[j]);
      }
    }
  }

  // ----- set_batch_mode, set_target_finder_mode (lines 119-128) -----

  function SetBatchMode(d: Doc, m: int): Doc
    requires Has(d.bools, "BatchMode")
  {
    d.(bools := SetText(d.bools, "BatchMode", Some(PyStr.IntToString(m))))
  }

  predicate CanSetTargetFinder(d: Doc, tf: Option<string>) {
    Has(d.bools, "find-path") && (tf.Some? ==> Has(d.files, "policy-target-file"))
  }

  function SetTargetFinderMode(d: Doc, m: int, tf: Option<string>): Doc
    requires CanSetTargetFinder(d, tf)
  {
    var d1 := d.(bools := SetText(d.bools, "find-path", Some(PyStr.IntToString(m))));
    if tf.Some? then d1.(files := SetText(d1.files, "policy-target-file", tf)) else d1
  }

  /**
   * `set_target_finder_mode` touches only the flags and the files, keeps
   * their shapes, and leaves the files alone when no path is supplied.
   */
  lemma TargetFinderEffect(d: Doc, m: int, tf: Option<string>)
    requires CanSetTargetFinder(d, tf)
    ensures var r := SetTargetFinderMode(d, m, tf);
      && r == d.(bools := r.bools, files := r.files)
      && Shape(r.bools) == Shape(d.bools) && Shape(r.files) == Shape(d.files)
      && (tf.None? ==> r.files == d.files)
  {
  }

  /** `find-path` reads the new mode; every other flag reads as before. */
  lemma TargetFinderFlag(d: Doc, m: int, tf: Option<string>, flag: string)
    requires CanSetTargetFinder(d, tf) && Has(d.bools, flag)
    ensures var r := SetTargetFinderMode(d, m, tf);
      && Has(r.bools, flag)
      && Text(r.bools, flag) == (if flag == "find-path" then Some(PyStr.IntToString(m)) else Text(d.bools, flag))
  {
    SetTextLookup(d.bools, "find-path", Some(PyStr.IntToString(m)), flag);
  }

  /** The policy file reads the given path, when one is given; every other file reads as before. */
  lemma TargetFinderFile(d: Doc, m: int, tf: Option<string>, file: string)
    requires CanSetTargetFinder(d, tf) && Has(d.files, file)
    ensures var r := SetTargetFinderMode(d, m, tf);
      && Has(r.files, file)
      && Text(r.files, file) == (if file == "policy-target-file" && tf.Some? then tf else Text(d.files, file))
  {
    if tf.Some? {
      SetTextLookup(d.files, "policy-target-file", tf, file);
    }
  }

  // ----- clear_scenario_components, add_scenario_components (lines 130-137) -----

  /** `strip_elements(..., '*', Comment)` removes every element and every comment. */
  function ClearScenarioComponents(d: Doc): Doc {
    d.(components := [])
  }

  /** Appends copies of `comps`, in order, after the existing components. */
  function AddScenarioComponents(d: Doc, comps: seq<Node>): Doc {
    d.(components := d.components + comps)
  }

  /** Adding is additive: earlier components stay in front, in order. */
  lemma AddScenarioComponentsTwice(d: Doc, a: seq<Node>, b: seq<Node>)
    ensures AddScenarioComponents(AddScenarioComponents(d, a), b) == AddScenarioComponents(d, a + b)
    ensures AddScenarioComponents(AddScenarioComponents(d, a), b).components[..|d.components|] == d.components
  {
    assert d.components + a + b == d.components + (a + b);
  }

  // ----- change_base_input_path without the climate file (lines 139-143) -----

  /** The XPath `Value[@name='xmlInputFileName' or @name='policy-target-file' or @name='GHGInputFileName']`. */
  predicate IsBaseInput(e: Entry) {
    Named(e, "xmlInputFileName") || Named(e, "policy-target-file") || Named(e, "GHGInputFileName")
  }

  /** The path `ScenarioComponents/Value`. */
  predicate IsComponentValue(n: Node) {
    n.Elem? && n.entry.tag == "Value"
  }

  /** Every entry that is rewritten has a text (otherwise `.replace` raises). */
  predicate BasePathsPresent(d: Doc) {
    && (forall i :: 0 <= i < |d.files| && IsBaseInput(d.files[i]) ==> d.files[i].text.Some?)
    && (forall i :: 0 <= i < |d.components| && IsComponentValue(d.components[i]) ==> d.components[i].entry.text.Some?)
  }

  function Rebase(e: Entry, base: string): Entry
    requires e.text.Some?
  {
    e.(text := Some(PyStr.ReplaceDotDot(e.text.value, base)))
  }

  function RebaseFile(e: Entry, base: string): Entry
    requires IsBaseInput(e) ==> e.text.Some?
  {
    if IsBaseInput(e) then Rebase(e, base) else e
  }

  function RebaseNode(n: Node, base: string): Node
    requires IsComponentValue(n) ==> n.entry.text.Some?
  {
    if IsComponentValue(n) then Elem(Rebase(n.entry, base)) else n
  }

  function ChangeBaseInputPath(d: Doc, base: string): Doc
    requires BasePathsPresent(d)
  {
    d.(files := seq(|d.files|, i requires 0 <= i < |d.files| => RebaseFile(d.files[i], base)),
       components := seq(|d.components|, i requires 0 <= i < |d.components| => RebaseNode(d.components[i], base)))
  }

  /** Whether no text that `change_base_input_path` rewrites contains "..". */
  predicate NoDotDotInBasePaths(d: Doc)
    requires BasePathsPresent(d)
  {
    && (forall i :: 0 <= i < |d.files| && IsBaseInput(d.files[i]) ==> !PyStr.HasDotDot(d.files[i].text.value))
    && (forall i :: 0 <= i < |d.components| && IsComponentValue(d.components[i]) ==>
          !PyStr.HasDotDot(d.components[i].entry.text.value))
  }

  /**
   * Exactly the three input entries of `Files` and the `Value` components
   * have their text rewritten; tags, attributes and all other entries and
   * sections are unchanged.
   */
  lemma ChangeBaseInputPathEffect(d: Doc, base: string)
    requires BasePathsPresent(d)
    ensures var r := ChangeBaseInputPath(d, base);
      && r == d.(files := r.files, components := r.components)
      && Shape(r.files) == Shape(d.files)
      && |r.components| == |d.components|
      && (forall i :: 0 <= i < |d.files| ==>
            r.files[i].text == if IsBaseInput(d.files[i])
                               then Some(PyStr.ReplaceDotDot(d.files[i].text.value, base))
                               else d.files[i].text)
      && (forall i :: 0 <= i < |d.components| ==>
            if IsComponentValue(d.components[i])
            then r.components[i] == Elem(d.components[i].entry.(text := Some(PyStr.ReplaceDotDot(d.components[i].entry.text.value, base))))
            else r.components[i] == d.components[i])
  {
  }

  /** A document whose rewritten texts contain no ".." is left exactly as it was. */
  lemma ChangeBaseWithoutDotDot(d: Doc, base: string)
    requires BasePathsPresent(d) && NoDotDotInBasePaths(d)
    ensures ChangeBaseInputPath(d, base) == d
  {
    var r := ChangeBaseInputPath(d, base);
    forall i | 0 <= i < |d.files|
      ensures r.files[i] == d.files[i]
    {
      if IsBaseInput(d.files[i]) {
        PyStr.ReplaceWithoutDotDot(d.files[i].text.value, base);
      }
    }
    forall i | 0 <= i < |d.components|
      ensures r.components[i] == d.components[i]
    {
      if IsComponentValue(d.components[i]) {
        PyStr.ReplaceWithoutDotDot(d.components[i].entry.text.value, base);
      }
    }
  }

  /**
   * With a new base that contains no '.', no rewritten text keeps a "..",
   * so a second rewrite with the same base changes nothing.
   */
  lemma ChangeBaseIdempotent(d: Doc, base: string)
    requires BasePathsPresent(d)
    requires forall k :: 0 <= k < |base| ==> base[k] != '.'
    ensures BasePathsPresent(ChangeBaseInputPath(d, base))
    ensures NoDotDotInBasePaths(ChangeBaseInputPath(d, base))
    ensures ChangeBaseInputPath(ChangeBaseInputPath(d, base), base) == ChangeBaseInputPath(d, base)
  {
    var r := ChangeBaseInputPath(d, base);
    assert Shape(r.files) == Shape(d.files);
    forall i | 0 <= i < |r.files| && IsBaseInput(r.files[i])
      ensures r.files[i].text.Some? && !PyStr.HasDotDot(r.files[i].text.value)
    {
      assert Shape(r.files)[i] == Shape(d.files)[i];
      PyStr.ReplaceRemovesAll(d.files[i].text.value, base);
    }
    forall i | 0 <= i < |r.components| && IsComponentValue(r.components[i])
      ensures r.components[i].entry.text.Some? && !PyStr.HasDotDot(r.components[i].entry.text.value)
    {
      PyStr.ReplaceRemovesAll(d.components[i].entry.text.value, base);
    }
    ChangeBaseWithoutDotDot(r, base);
  }
}

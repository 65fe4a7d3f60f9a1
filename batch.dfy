/**
 * `generate_batch_permutations` (gcam_config/gcam_config.py:16-48): one
 * configuration per tuple of the product of the batch file's axes.
 *
 * A batch file is its root's children, already parsed.  Each
 * `ComponentSet` contributes one axis, its `FileSet` children; every child
 * element of every `runner-set` together makes one last axis, present only
 * when non-empty.  Expanding a tuple appends each `FileSet`'s children to
 * the scenario components, switches the target finder on for a `Value`
 * (with its text as the policy file, when it has one) and names the
 * scenario by the concatenated `name` attributes.
 */
module Batch {
  import opened Maybe
  import ConfigDoc
  import PyStr
  import Product
  import GcamConfig

  /** One alternative of an axis: a `FileSet` of a `ComponentSet`, or any element child of a `runner-set`. */
  datatype Alt =
    | FileSet(name: Option<string>, children: seq<ConfigDoc.Node>)
    | Value(name: Option<string>, text: Option<string>)
    | SingleRunner
    | OtherTag(tag: string)

  /** A child of the batch file's root; `members` are the element children, in document order. */
  datatype Item =
    | ComponentSet(members: seq<Alt>)
    | RunnerSet(members: seq<Alt>)
    | OtherItem(tag: string)

  // ----- the axes (lines 23-28) -----

  /** `cs.findall("./FileSet")`. */
  function FileSets(ms: seq<Alt>): (r: seq<Alt>)
    ensures forall i :: 0 <= i < |r| ==> r[i].FileSet?
  {
    if ms == [] then []
    else FileSets(ms[..|ms| - 1]) + (if ms[|ms| - 1].FileSet? then [ms[|ms| - 1]] else [])
  }

  /** One axis per `ComponentSet`, in document order. */
  function ComponentAxes(items: seq<Item>): seq<seq<Alt>> {
    if items == [] then []
    else
      var last := items[|items| - 1];
      ComponentAxes(items[..|items| - 1]) + (if last.ComponentSet? then [FileSets(last.members)] else [])
  }

  /** The element children of every `runner-set`, in document order. */
  function Runners(items: seq<Item>): seq<Alt> {
    if items == [] then []
    else
      var last := items[|items| - 1];
      Runners(items[..|items| - 1]) + (if last.RunnerSet? then last.members else [])
  }

  /** `comp_sets`: the component axes, then the runner axis when there is one. */
  function Axes(items: seq<Item>): seq<seq<Alt>> {
    ComponentAxes(items) + (if Runners(items) != [] then [Runners(items)] else [])
  }

  /** The number of `ComponentSet`s. */
  function CountSets(items: seq<Item>): nat {
    if items == [] then 0
    else CountSets(items[..|items| - 1]) + (if items[|items| - 1].ComponentSet? then 1 else 0)
  }

  // ----- expanding one tuple (lines 32-47) -----

  /** The name one alternative contributes: its `name` attribute, or "" for the other tags. */
  function AltName(a: Alt): Option<string> {
    match a
    case FileSet(n, _) => n
    case Value(n, _) => n
    case _ => Some("")
  }

  /** `scenario_name`, the list of names. */
  function NameList(c: seq<Alt>): (r: seq<string>)
    requires forall i :: 0 <= i < |c| ==> AltName(c[i]).Some?
    ensures |r| == |c|
  {
    if c == [] then [] else NameList(c[..|c| - 1]) + [AltName(c[|c| - 1]).value]
  }

  /** `"".join(parts)`. */
  function Concat(parts: seq<string>): string {
    if parts == [] then "" else Concat(parts[..|parts| - 1]) + parts[|parts| - 1]
  }

  function Names(c: seq<Alt>): string
    requires forall i :: 0 <= i < |c| ==> AltName(c[i]).Some?
  {
    Concat(NameList(c))
  }

  /** The children every `FileSet` of a tuple adds, in order. */
  function Children(c: seq<Alt>): seq<ConfigDoc.Node> {
    if c == [] then []
    else
      var last := c[|c| - 1];
      Children(c[..|c| - 1]) + (if last.FileSet? then last.children else [])
  }

  /** What the source needs of the document to expand `a` without raising. */
  predicate AltReady(d: ConfigDoc.Doc, a: Alt) {
    AltName(a).Some? && (a.Value? ==> ConfigDoc.CanSetTargetFinder(d, a.text))
  }

  /** What expanding the whole tuple `c` needs: also a `scenarioName` entry to set. */
  predicate ComboReady(d: ConfigDoc.Doc, c: seq<Alt>) {
    ConfigDoc.HasScenarioName(d) && forall i :: 0 <= i < |c| ==> AltReady(d, c[i])
  }

  /** Documents that agree on their entries' names agree on readiness. */
  lemma AltReadyIgnoresText(d: ConfigDoc.Doc, p: ConfigDoc.Doc, a: Alt)
    requires ConfigDoc.Shape(d.bools) == ConfigDoc.Shape(p.bools)
    requires ConfigDoc.Shape(d.files) == ConfigDoc.Shape(p.files)
    ensures AltReady(d, a) == AltReady(p, a)
  {
    ConfigDoc.FindIgnoresText(d.bools, p.bools, "find-path");
    ConfigDoc.FindIgnoresText(d.files, p.files, "policy-target-file");
  }

  /** The effect of one alternative; only components, `find-path` and the policy file can change. */
  function ApplyAlt(d: ConfigDoc.Doc, a: Alt): (r: ConfigDoc.Doc)
    requires AltReady(d, a)
    ensures ConfigDoc.Shape(r.bools) == ConfigDoc.Shape(d.bools)
    ensures ConfigDoc.Shape(r.files) == ConfigDoc.Shape(d.files)
    ensures r.ints == d.ints && r.strings == d.strings
  {
    match a
    case FileSet(_, children) => ConfigDoc.AddScenarioComponents(d, children)
    case Value(_, text) => ConfigDoc.SetTargetFinderMode(d, 1, text)
    case _ => d
  }

  lemma InitReady(d: ConfigDoc.Doc, c: seq<Alt>, init: seq<Alt>)
    requires c != [] && init == c[..|c| - 1] && forall i :: 0 <= i < |c| ==> AltReady(d, c[i])
    ensures forall i :: 0 <= i < |init| ==> AltReady(d, init[i])
  {
    forall i | 0 <= i < |init|
      ensures AltReady(d, init[i])
    {
      assert init[i] == c[i];
    }
  }

  /** The alternatives of a tuple applied in order to a copy of the base document. */
  function ApplyAlts(d: ConfigDoc.Doc, c: seq<Alt>): (r: ConfigDoc.Doc)
    requires forall i :: 0 <= i < |c| ==> AltReady(d, c[i])
    ensures ConfigDoc.Shape(r.bools) == ConfigDoc.Shape(d.bools)
    ensures ConfigDoc.Shape(r.files) == ConfigDoc.Shape(d.files)
    ensures r.ints == d.ints && r.strings == d.strings
  {
    if c == [] then d
    else
      var init := c[..|c| - 1];
      InitReady(d, c, init);
      var p := ApplyAlts(d, init);
      AltReadyIgnoresText(d, p, c[|c| - 1]);
      ApplyAlt(p, c[|c| - 1])
  }

  /** The configuration one tuple yields, before it is appended to the result. */
  function Expand(d: ConfigDoc.Doc, c: seq<Alt>): ConfigDoc.Doc
    requires ComboReady(d, c)
  {
    ConfigDoc.SetScenarioName(ApplyAlts(d, c), Names(c))
  }

  /** The base document after `set_batch_mode(0)` and `set_target_finder_mode(0)`. */
  predicate CanNormalize(d: ConfigDoc.Doc) {
    ConfigDoc.Has(d.bools, "BatchMode") && ConfigDoc.Has(d.bools, "find-path")
  }

  function Normalize(d: ConfigDoc.Doc): (r: ConfigDoc.Doc)
    requires CanNormalize(d)
    ensures ConfigDoc.Shape(r.bools) == ConfigDoc.Shape(d.bools)
    ensures r == d.(bools := r.bools)
  {
    var d1 := ConfigDoc.SetBatchMode(d, 0);
    ConfigDoc.FindIgnoresText(d.bools, d1.bools, "find-path");
    ConfigDoc.SetTargetFinderMode(d1, 0, None)
  }

  /** Every tuple of the product is expandable from `d`: what the source needs to return at all. */
  predicate ExpansionReady(d: ConfigDoc.Doc, items: seq<Item>) {
    forall k :: 0 <= k < |Product.Combos(Axes(items))| ==> ComboReady(d, Product.Combos(Axes(items))[k])
  }

  /** All but the last alternative are `FileSet`s: the shape of every tuple of the product. */
  predicate WellShaped(c: seq<Alt>) {
    forall i :: 0 <= i < |c| - 1 ==> c[i].FileSet?
  }

  function LastValue(c: seq<Alt>): Option<Alt> {
    if c != [] && c[|c| - 1].Value? then Some(c[|c| - 1]) else None
  }

  // ----- properties of the axes -----

  lemma {:induction false} FileSetsMembers(ms: seq<Alt>, a: Alt)
    ensures a in FileSets(ms) <==> a in ms && a.FileSet?
  {
    if ms != [] {
      var init := ms[..|ms| - 1];
      FileSetsMembers(init, a);
      assert ms == init + [ms[|ms| - 1]];
    }
  }

  /** An alternative is a runner exactly when it is a member of some `runner-set`. */
  lemma {:induction false} RunnersMembers(items: seq<Item>, a: Alt)
    ensures a in Runners(items) <==> exists i :: 0 <= i < |items| && items[i].RunnerSet? && a in items[i].members
  {
    if items != [] {
      var init, last := items[..|items| - 1], items[|items| - 1];
      RunnersMembers(init, a);
      if a in Runners(items) && a !in Runners(init) {
        assert last.RunnerSet? && a in last.members;
      }
      if exists i :: 0 <= i < |items| && items[i].RunnerSet? && a in items[i].members {
        var i :| 0 <= i < |items| && items[i].RunnerSet? && a in items[i].members;
        if i < |init| {
          assert init[i] == items[i];
        }
      }
    }
  }

  /** One axis per `ComponentSet`, each holding exactly its `FileSet`s. */
  lemma {:induction false} ComponentAxesShape(items: seq<Item>)
    ensures |ComponentAxes(items)| == CountSets(items)
    ensures forall k, j :: 0 <= k < |ComponentAxes(items)| && 0 <= j < |ComponentAxes(items)[k]|
              ==> ComponentAxes(items)[k][j].FileSet?
  {
    if items != [] {
      ComponentAxesShape(items[..|items| - 1]);
    }
  }

  /** The number of axes: one per `ComponentSet`, plus one when any runner is listed. */
  lemma AxesCount(items: seq<Item>)
    ensures |Axes(items)| == CountSets(items) + (if Runners(items) != [] then 1 else 0)
    ensures Runners(items) != [] ==> Axes(items)[|Axes(items)| - 1] == Runners(items)
  {
    ComponentAxesShape(items);
  }

  /** Every tuple of the product has `FileSet`s before its last position. */
  lemma CombosWellShaped(items: seq<Item>, c: seq<Alt>)
    requires c in Product.Combos(Axes(items))
    ensures WellShaped(c) && |c| == |Axes(items)|
  {
    var axes := Axes(items);
    Product.CombosMembership(axes, c);
    ComponentAxesShape(items);
    forall i | 0 <= i < |c| - 1
      ensures c[i].FileSet?
    {
      assert c[i] in axes[i];
      assert axes[i] == ComponentAxes(items)[i];
    }
  }

  /** A `ComponentSet` without `FileSet`s yields no configuration at all. */
  lemma EmptyComponentSet(items: seq<Item>, k: nat)
    requires k < |items| && items[k].ComponentSet? && FileSets(items[k].members) == []
    ensures Product.Combos(Axes(items)) == []
  {
    var n := ComponentAxesPosition(items, k);
    Product.CardZero(Axes(items), n);
  }

  /** The `ComponentSet` at `items[k]` is axis number `n`, counting the `ComponentSet`s before it: the axes keep document order. */
  lemma {:induction false} ComponentAxesPosition(items: seq<Item>, k: nat) returns (n: nat)
    requires k < |items| && items[k].ComponentSet?
    ensures n == CountSets(items[..k])
    ensures n < |ComponentAxes(items)| && ComponentAxes(items)[n] == FileSets(items[k].members)
  {
    var init := items[..|items| - 1];
    if k < |init| {
      assert init[k] == items[k];
      assert init[..k] == items[..k];
      n := ComponentAxesPosition(init, k);
    } else {
      assert items[..k] == init;
      ComponentAxesShape(init);
      n := |ComponentAxes(init)|;
    }
  }

  /** With no `ComponentSet` and no runner the product has exactly one, empty, tuple. */
  lemma NoAxes(items: seq<Item>)
    requires CountSets(items) == 0 && Runners(items) == []
    ensures Product.Combos(Axes(items)) == [[]]
  {
    ComponentAxesShape(items);
  }

  // ----- properties of one expansion -----

  lemma {:induction false} NameListAppend(a: seq<Alt>, b: seq<Alt>)
    requires forall i :: 0 <= i < |a| ==> AltName(a[i]).Some?
    requires forall i :: 0 <= i < |b| ==> AltName(b[i]).Some?
    ensures forall i :: 0 <= i < |a + b| ==> AltName((a + b)[i]).Some?
    ensures NameList(a + b) == NameList(a) + NameList(b)
    decreases |b|
  {
    assert forall i :: 0 <= i < |a + b| ==> AltName((a + b)[i]).Some? by {
      forall i | 0 <= i < |a + b|
        ensures AltName((a + b)[i]).Some?
      {
        if i >= |a| {
          assert (a + b)[i] == b[i - |a|];
        }
      }
    }
    if b == [] {
      assert a + b == a;
    } else {
      var init := b[..|b| - 1];
      assert (a + b)[..|a + b| - 1] == a + init;
      assert forall i :: 0 <= i < |init| ==> AltName(init[i]).Some? by {
        forall i | 0 <= i < |init|
          ensures AltName(init[i]).Some?
        {
          assert init[i] == b[i];
        }
      }
      NameListAppend(a, init);
    }
  }

  lemma {:induction false} ConcatAppend(p: seq<string>, q: seq<string>)
    ensures Concat(p + q) == Concat(p) + Concat(q)
    decreases |q|
  {
    if q == [] {
      assert p + q == p;
    } else {
      var init, last := q[..|q| - 1], q[|q| - 1];
      assert (p + q)[..|p + q| - 1] == p + init && (p + q)[|p + q| - 1] == last;
      ConcatAppend(p, init);
      var x, y := Concat(p), Concat(init);
      assert Concat(p + q) == Concat(p + init) + last;
      assert x + y + last == x + (y + last);
    }
  }

  /** The scenario name of a joined tuple is the join of the two names. */
  lemma NamesAppend(a: seq<Alt>, b: seq<Alt>)
    requires forall i :: 0 <= i < |a| ==> AltName(a[i]).Some?
    requires forall i :: 0 <= i < |b| ==> AltName(b[i]).Some?
    ensures forall i :: 0 <= i < |a + b| ==> AltName((a + b)[i]).Some?
    ensures Names(a + b) == Names(a) + Names(b)
  {
    NameListAppend(a, b);
    ConcatAppend(NameList(a), NameList(b));
  }

  /** A `single-scenario-runner` or another tag adds nothing to the name. */
  lemma UnnamedAltAddsNothing(c: seq<Alt>, a: Alt)
    requires forall i :: 0 <= i < |c| ==> AltName(c[i]).Some?
    requires a.SingleRunner? || a.OtherTag?
    ensures forall i :: 0 <= i < |c + [a]| ==> AltName((c + [a])[i]).Some?
    ensures Names(c + [a]) == Names(c)
  {
    NamesAppend(c, [a]);
    assert NameList([a]) == [""] by {
      assert [a][..0] == [];
    }
    assert Concat([""]) == "" by {
      assert [""][..0] == [];
    }
  }

  /** Expanding appends exactly the tuple's `FileSet` children to the components, in order. */
  lemma {:induction false} ExpandComponents(d: ConfigDoc.Doc, c: seq<Alt>)
    requires forall i :: 0 <= i < |c| ==> AltReady(d, c[i])
    ensures ApplyAlts(d, c).components == d.components + Children(c)
  {
    if c == [] {
      assert d.components + [] == d.components;
    } else {
      var init := c[..|c| - 1];
      InitReady(d, c, init);
      ExpandComponents(d, init);
      var last := c[|c| - 1];
      var add: seq<ConfigDoc.Node> := if last.FileSet? then last.children else [];
      assert d.components + Children(init) + add == d.components + (Children(init) + add);
    }
  }

  /** `FileSet`s touch only the components. */
  lemma {:induction false} FileSetsOnlyAddComponents(d: ConfigDoc.Doc, c: seq<Alt>)
    requires forall i :: 0 <= i < |c| ==> c[i].FileSet? && AltReady(d, c[i])
    ensures ApplyAlts(d, c) == d.(components := ApplyAlts(d, c).components)
  {
    if c != [] {
      var init := c[..|c| - 1];
      assert forall i :: 0 <= i < |init| ==> init[i].FileSet? && AltReady(d, init[i]) by {
        forall i | 0 <= i < |init|
          ensures init[i].FileSet? && AltReady(d, init[i])
        {
          assert init[i] == c[i];
        }
      }
      FileSetsOnlyAddComponents(d, init);
    }
  }

  /**
   * The scenario name of an expanded tuple is the concatenation of its
   * names; no other string or integer entry changes.
   */
  lemma ExpandName(d: ConfigDoc.Doc, c: seq<Alt>, other: string)
    requires ComboReady(d, c) && ConfigDoc.Has(d.strings, other)
    ensures var r := Expand(d, c);
      && ConfigDoc.HasScenarioName(r) && ConfigDoc.ScenarioName(r) == Some(Names(c))
      && r.ints == d.ints
      && ConfigDoc.Has(r.strings, other)
      && (other != ConfigDoc.ScenarioNameKey ==> ConfigDoc.Text(r.strings, other) == ConfigDoc.Text(d.strings, other))
  {
    var p := ApplyAlts(d, c);
    ConfigDoc.SetTextLookup(p.strings, ConfigDoc.ScenarioNameKey, Some(Names(c)), other);
  }

  /** The flags of a tuple of the product: `find-path` reads "1" exactly when the tuple ends in a `Value`. */
  lemma ExpandFlag(d: ConfigDoc.Doc, c: seq<Alt>, flag: string)
    requires ComboReady(d, c) && WellShaped(c) && ConfigDoc.Has(d.bools, flag)
    ensures var r := Expand(d, c);
      && ConfigDoc.Has(r.bools, flag)
      && ConfigDoc.Text(r.bools, flag)
         == (if flag == "find-path" && LastValue(c).Some? then Some("1") else ConfigDoc.Text(d.bools, flag))
  {
    var p := ApplyAlts(d, c);
    if c != [] {
      var q, last := SplitLast(d, c);
      if last.Value? {
        assert "1" == PyStr.IntToString(1) by {
          assert PyStr.Decimal(1) == "1";
        }
        ConfigDoc.TargetFinderFlag(q, 1, last.text, flag);
      }
    }
  }

  /** The files of a tuple of the product: the policy file takes a trailing `Value`'s text, when it has one. */
  lemma ExpandFile(d: ConfigDoc.Doc, c: seq<Alt>, file: string)
    requires ComboReady(d, c) && WellShaped(c) && ConfigDoc.Has(d.files, file)
    ensures var r := Expand(d, c);
      && ConfigDoc.Has(r.files, file)
      && ConfigDoc.Text(r.files, file)
         == (if file == "policy-target-file" && LastValue(c).Some? && LastValue(c).value.text.Some?
             then LastValue(c).value.text
             else ConfigDoc.Text(d.files, file))
  {
    var p := ApplyAlts(d, c);
    if c != [] {
      var q, last := SplitLast(d, c);
      if last.Value? {
        ConfigDoc.TargetFinderFile(q, 1, last.text, file);
      }
    }
  }

  /**
   * A tuple of the product is its `FileSet`s, which leave flags and files
   * as they were, then one last alternative applied to the result `q`.
   */
  lemma SplitLast(d: ConfigDoc.Doc, c: seq<Alt>) returns (q: ConfigDoc.Doc, last: Alt)
    requires c != [] && WellShaped(c) && forall i :: 0 <= i < |c| ==> AltReady(d, c[i])
    ensures last == c[|c| - 1] && q.bools == d.bools && q.files == d.files
    ensures AltReady(q, last) && ApplyAlts(d, c) == ApplyAlt(q, last)
    ensures !last.Value? ==> ApplyAlts(d, c).bools == d.bools && ApplyAlts(d, c).files == d.files
  {
    var init := c[..|c| - 1];
    last := c[|c| - 1];
    assert forall i :: 0 <= i < |init| ==> init[i].FileSet? && AltReady(d, init[i]) by {
      forall i | 0 <= i < |init|
        ensures init[i].FileSet? && AltReady(d, init[i])
      {
        assert init[i] == c[i];
      }
    }
    FileSetsOnlyAddComponents(d, init);
    q := ApplyAlts(d, init);
    AltReadyIgnoresText(d, q, last);
  }

  /** `Normalize` writes "0" into both `BatchMode` and `find-path` and nothing else. */
  lemma NormalizeFlags(d: ConfigDoc.Doc, flag: string)
    requires CanNormalize(d) && ConfigDoc.Has(d.bools, flag)
    ensures var r := Normalize(d);
      && ConfigDoc.Has(r.bools, flag)
      && ConfigDoc.Text(r.bools, flag)
         == (if flag == "BatchMode" || flag == "find-path" then Some("0") else ConfigDoc.Text(d.bools, flag))
  {
    var s := Some(PyStr.IntToString(0));
    assert s == Some("0") by {
      assert PyStr.Decimal(0) == "0";
    }
    var d1 := ConfigDoc.SetBatchMode(d, 0);
    ConfigDoc.SetTextLookup(d.bools, "BatchMode", s, flag);
    ConfigDoc.SetTextLookup(d.bools, "BatchMode", s, "find-path");
    ConfigDoc.SetTextLookup(d1.bools, "find-path", s, flag);
  }

  /**
   * The product's tuples can be expanded when the base document has a
   * scenario name, every alternative is named, and a policy file entry
   * exists wherever a runner `Value` carries a text.
   */
  lemma ReadyWhenAltsReady(d: ConfigDoc.Doc, items: seq<Item>)
    requires ConfigDoc.HasScenarioName(d)
    requires forall k, j :: 0 <= k < |Axes(items)| && 0 <= j < |Axes(items)[k]| ==> AltReady(d, Axes(items)[k][j])
    ensures ExpansionReady(d, items)
  {
    var axes := Axes(items);
    forall k | 0 <= k < |Product.Combos(axes)|
      ensures ComboReady(d, Product.Combos(axes)[k])
    {
      var c := Product.Combos(axes)[k];
      Product.CombosMembership(axes, c);
      forall i | 0 <= i < |c|
        ensures AltReady(d, c[i])
      {
        var j :| 0 <= j < |axes[i]| && axes[i][j] == c[i];
      }
    }
  }

  /**
   * Two `FileSet`s `A`, `B` and the runners `single-scenario-runner`, `Value P`
   * give four configurations, named "A", "AP", "B", "BP" in that order.
   */
  lemma FourScenarios()
    ensures var a, b := FileSet(Some("A"), []), FileSet(Some("B"), []);
      var r, v := SingleRunner, Value(Some("P"), None);
      var items := [ComponentSet([a, OtherTag("Description"), b]), RunnerSet([r, v])];
      && Axes(items) == [[a, b], [r, v]]
      && Product.Combos(Axes(items)) == [[a, r], [a, v], [b, r], [b, v]]
      && Names([a, r]) == "A" && Names([a, v]) == "AP" && Names([b, r]) == "B" && Names([b, v]) == "BP"
  {
    var a, b := FileSet(Some("A"), []), FileSet(Some("B"), []);
    var r, v := SingleRunner, Value(Some("P"), None);
    var items := [ComponentSet([a, OtherTag("Description"), b]), RunnerSet([r, v])];
    var t := OtherTag("Description");
    var ms := [a, t, b];
    assert ms[..2] == [a, t] && [a, t][..1] == [a] && [a][..0] == [];
    assert FileSets([a]) == [a];
    assert FileSets([a, t]) == [a];
    assert FileSets(ms) == [a, b];
    assert items[..1] == [items[0]] && [items[0]][..0] == [];
    assert ComponentAxes([items[0]]) == [FileSets(ms)];
    assert ComponentAxes(items) == [[a, b]];
    assert Runners([items[0]]) == [];
    assert Runners(items) == [r, v];
    assert Axes(items) == [[a, b], [r, v]];
    Product.TwoByTwo(a, b, r, v);
    NamesOfPair(a, r);
    NamesOfPair(a, v);
    NamesOfPair(b, r);
    NamesOfPair(b, v);
    assert "A" + "" == "A" && "A" + "P" == "AP" && "B" + "" == "B" && "B" + "P" == "BP";
  }

  /**
   * Names are joined with no separator, so two different tuples of one
   * product can name their scenarios alike: `A` with `BC` and `AB` with `C`
   * are both "ABC".
   */
  lemma NameCollision()
    ensures var a, ab := FileSet(Some("A"), []), FileSet(Some("AB"), []);
      var bc, c := FileSet(Some("BC"), []), FileSet(Some("C"), []);
      var items := [ComponentSet([a, ab]), ComponentSet([bc, c])];
      && Product.Combos(Axes(items)) == [[a, bc], [a, c], [ab, bc], [ab, c]]
      && [a, bc] != [ab, c]
      && Names([a, bc]) == "ABC" && Names([ab, c]) == "ABC"
  {
    var a, ab := FileSet(Some("A"), []), FileSet(Some("AB"), []);
    var bc, c := FileSet(Some("BC"), []), FileSet(Some("C"), []);
    FileSetsPair(a, ab);
    FileSetsPair(bc, c);
    TwoComponentSets([a, ab], [bc, c]);
    Product.TwoByTwo(a, ab, bc, c);
    NamesOfPair(a, bc);
    NamesOfPair(ab, c);
    assert "A" + "BC" == "ABC" && "AB" + "C" == "ABC";
    assert [a, bc][0] != [ab, c][0];
  }

  lemma FileSetsPair(x: Alt, y: Alt)
    requires x.FileSet? && y.FileSet?
    ensures FileSets([x, y]) == [x, y]
  {
    assert [x, y][..1] == [x] && [x][..0] == [];
    assert FileSets([x]) == [x];
  }

  /** Two component sets and no runner: one axis each, in order. */
  lemma TwoComponentSets(p: seq<Alt>, q: seq<Alt>)
    ensures Axes([ComponentSet(p), ComponentSet(q)]) == [FileSets(p), FileSets(q)]
  {
    var items := [ComponentSet(p), ComponentSet(q)];
    assert items[..1] == [items[0]] && [items[0]][..0] == [];
    assert ComponentAxes([items[0]]) == [FileSets(p)];
    assert Runners([items[0]]) == [];
  }

  lemma NamesOfPair(x: Alt, y: Alt)
    requires AltName(x).Some? && AltName(y).Some?
    ensures Names([x, y]) == AltName(x).value + AltName(y).value
  {
    assert [x, y][..1] == [x] && [x][..0] == [];
    assert NameList([x, y]) == [AltName(x).value, AltName(y).value];
    var ns := NameList([x, y]);
    assert ns[..1] == [ns[0]] && [ns[0]][..0] == [];
    assert Concat([ns[0]]) == ns[0];
  }

  // ----- the imperative procedure -----

  /** The loop over `batch.getroot().iterfind("./ComponentSet")`, then the runner axis. */
  method CollectAxes(items: seq<Item>) returns (axes: seq<seq<Alt>>)
    ensures axes == Axes(items)
  {
    axes := [];
    var i := 0;
    while i < |items|
      invariant 0 <= i <= |items|
      invariant axes == ComponentAxes(items[..i])
    {
      assert items[..i + 1][..i] == items[..i];
      if items[i].ComponentSet? {
        axes := axes + [FileSets(items[i].members)];
      }
      i := i + 1;
    }
    assert items[..i] == items;
    var runners := Runners(items);
    if |runners| > 0 {
      axes := axes + [runners];
    }
  }

  /** One more alternative: the prefix applied, then that alternative; one more name. */
  lemma ApplyAltsSnoc(d: ConfigDoc.Doc, c: seq<Alt>, i: nat)
    requires i < |c| && forall j :: 0 <= j < |c| ==> AltReady(d, c[j])
    ensures forall j :: 0 <= j <= i ==> c[..i + 1][j] == c[j]
    ensures forall j :: 0 <= j < i ==> c[..i][j] == c[j]
    ensures AltReady(ApplyAlts(d, c[..i]), c[i])
    ensures ApplyAlts(d, c[..i + 1]) == ApplyAlt(ApplyAlts(d, c[..i]), c[i])
    ensures NameList(c[..i + 1]) == NameList(c[..i]) + [AltName(c[i]).value]
  {
    assert c[..i + 1][..i] == c[..i];
    AltReadyIgnoresText(d, ApplyAlts(d, c[..i]), c[i]);
  }

  /** The body of the loop over one tuple: apply each alternative, then set the joined name. */
  method ExpandInto(cfg: GcamConfig.Config, c: seq<Alt>)
    requires ComboReady(cfg.doc, c)
    modifies cfg
    ensures cfg.doc == Expand(old(cfg.doc), c)
  {
    ghost var d0 := cfg.doc;
    var parts: seq<string> := [];
    var i := 0;
    while i < |c|
      invariant 0 <= i <= |c|
      invariant forall j :: 0 <= j < i ==> c[..i][j] == c[j]
      invariant cfg.doc == ApplyAlts(d0, c[..i])
      invariant parts == NameList(c[..i])
    {
      ApplyAltsSnoc(d0, c, i);
      var a := c[i];
      ghost var prev := cfg.doc;
      var name := "";
      if a.FileSet? {
        name := a.name.value;
        cfg.AddScenarioComponents(a.children);
      } else if a.Value? {
        name := a.name.value;
        cfg.SetTargetFinderMode(1, a.text);
      } else if a.SingleRunner? {
        name := "";
      }
      assert cfg.doc == ApplyAlt(prev, a) && name == AltName(a).value;
      parts := parts + [name];
      i := i + 1;
    }
    assert c[..i] == c;
    ConfigDoc.FindIgnoresText(d0.strings, cfg.doc.strings, ConfigDoc.ScenarioNameKey);
    cfg.SetScenarioName(Concat(parts));
  }

  /**
   * `generate_batch_permutations(base_config, batch_file)`: normalises the
   * caller's configuration in place and returns one fresh copy of it per
   * tuple of the product, in product order, each expanded by its tuple.
   */
  method GenerateBatchPermutations(base: GcamConfig.Config, items: seq<Item>)
    returns (configs: seq<GcamConfig.Config>)
    requires CanNormalize(base.doc) && ExpansionReady(Normalize(base.doc), items)
    modifies base
    ensures base.doc == Normalize(old(base.doc))
    ensures |configs| == |Product.Combos(Axes(items))|
    ensures forall k :: 0 <= k < |configs| ==>
              fresh(configs[k]) && configs[k].file == base.file && configs[k].dir == base.dir
              && configs[k].doc == Expand(base.doc, Product.Combos(Axes(items))[k])
    ensures forall k, m :: 0 <= k < m < |configs| ==> configs[k] != configs[m]
  {
    ghost var d0 := base.doc;
    base.SetBatchMode(0);
    ConfigDoc.FindIgnoresText(d0.bools, base.doc.bools, "find-path");
    base.SetTargetFinderMode(0, None);
    var axes := CollectAxes(items);
    configs := ExpandAll(base, Product.Combos(axes));
  }

  /** The loop over the tuples: a fresh copy of `base` per tuple, expanded by it. */
  method ExpandAll(base: GcamConfig.Config, combos: seq<seq<Alt>>) returns (configs: seq<GcamConfig.Config>)
    requires forall k :: 0 <= k < |combos| ==> ComboReady(base.doc, combos[k])
    ensures |configs| == |combos|
    ensures forall k :: 0 <= k < |configs| ==>
              fresh(configs[k]) && configs[k].file == base.file && configs[k].dir == base.dir
              && configs[k].doc == Expand(base.doc, combos[k])
    ensures forall k, m :: 0 <= k < m < |configs| ==> configs[k] != configs[m]
  {
    configs := [];
    var k := 0;
    while k < |combos|
      invariant 0 <= k <= |combos|
      invariant |configs| == k
      invariant forall m :: 0 <= m < k ==>
                  fresh(configs[m]) && configs[m].file == base.file && configs[m].dir == base.dir
                  && configs[m].doc == Expand(base.doc, combos[m])
      invariant forall m, n :: 0 <= m < n < k ==> configs[m] != configs[n]
    {
      var current := base.Copy();
      ExpandInto(current, combos[k]);
      configs := configs + [current];
      k := k + 1;
    }
  }
}

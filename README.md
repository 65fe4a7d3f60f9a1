# gcam_config, modelled in Dafny

This project models the `gcam_config` package. The package edits GCAM
model configuration documents (an XML `Configuration` root with `Bools`,
`Ints`, `Strings`, `Files` and `ScenarioComponents` sections) and expands a
batch file into one configuration per scenario. The model covers:

- `hash_to_bytes`, the minimal big-endian encoding of a digest (`HashBytes`);
- the `GcamConfig` object (`GcamConfig.Config`): its setters and getter,
  `disable_outputs`, clearing and adding scenario components, and
  `change_base_input_path` without the climate file. Each method is
  specified by a pure document transformation in `ConfigDoc`;
- the content fingerprint `__hash__`. It is written as a method over the
  bytes fed to the streaming hasher, and specified by a token stream
  (`Fingerprint`);
- `generate_batch_permutations` (`Batch`), on top of a model of
  `itertools.product` (`Product`);
- `str(int)` and `str.replace("..", base)`, as far as the package relies on
  them (`PyStr`).

A document is a record of five sections. Each of the first four sections
is a sequence of entries: tag, attributes, optional text. The components
are a sequence of nodes, each a comment or an element. Lookup by
`./Section/Value[@name='n']` is `ConfigDoc.Find`, which returns the first
match. Where the source would raise because an entry is missing (an
`AttributeError` on the `None` that `find` returns, or, in `__hash__`, an
`IndexError` from `[0]` on an empty `xpath` result), the model has a
precondition that the entry exists. Three behaviours of the code are worth stating plainly:

- `clear_scenario_components` strips comments as well as elements.
- `generate_batch_permutations` sets batch mode and target-finder mode to 0
  on the caller's own `GcamConfig` object, before it copies that object.
- A batch file with no component set and no runner gives exactly one
  configuration, because the product of no axes has one empty tuple.
- Scenario names are the alternatives' names joined with no separator, so
  two different tuples can give the same name (`Batch.NameCollision`).

## Model

| member | source | states |
|---|---|---|
| HashBytes.HashToBytesRoundTrip | gcam_config/gcam_config.py:13-14 | reading the encoding back as a big-endian unsigned integer gives the digest |
| HashBytes.HashToBytesMinimal | gcam_config/gcam_config.py:13-14 | the encoding has `(bit_length + 7) // 8` bytes, is empty exactly for 0, and otherwise has no leading zero byte |
| HashBytes.HashToBytesOnto | gcam_config/gcam_config.py:13-14 | every byte string without a leading zero is the encoding of the integer it reads as |
| HashBytes.HashToBytesInjective | gcam_config/gcam_config.py:13-14 | two digests encode alike exactly when they are equal |
| HashBytes.ToBigEndian | gcam_config/gcam_config.py:14 | `to_bytes(len, 'big')` yields exactly `len` bytes |
| HashBytes.FromToBigEndian | gcam_config/gcam_config.py:14 | a value below `256^len` is recovered from its `len` big-endian bytes |
| HashBytes.ToFromBigEndian | gcam_config/gcam_config.py:14 | re-encoding the value of any byte string at its own length gives it back |
| HashBytes.FromBigEndianBounds | gcam_config/gcam_config.py:14 | `n` bytes read as a value below `256^n`, and at least `256^(n-1)` when the first byte is nonzero |
| HashBytes.ByteLengthBounds | gcam_config/gcam_config.py:14 | `(bit_length + 7) // 8` bytes hold the value, and one byte fewer does not |
| HashBytes.ByteLengthExact | gcam_config/gcam_config.py:14 | a value between `256^(n-1)` and `256^n` has byte length `n` |
| HashBytes.BitLengthBounds | gcam_config/gcam_config.py:14 | `2^(bit_length-1) <= h < 2^bit_length` |
| HashBytes.BitLengthExact | gcam_config/gcam_config.py:14 | the bit length is the unique `k` with `2^(k-1) <= h < 2^k` |
| HashBytes.LeadingByteNonzero | gcam_config/gcam_config.py:14 | a value that needs all `len` bytes has a nonzero first byte |
| HashBytes.Pow2Pow256 | gcam_config/gcam_config.py:14 | eight bits make a byte: `2^(8k) == 256^k` |
| PyStr.IntToString | gcam_config/gcam_config.py:98 | `str(i)` is nonempty and starts with `-` exactly for negative `i` |
| PyStr.Decimal | gcam_config/gcam_config.py:98 | the digits of a natural number are decimal digits with no leading zero |
| PyStr.DecimalRoundTrip | gcam_config/gcam_config.py:98 | the digits read back as the number |
| PyStr.IntToStringRoundTrip | gcam_config/gcam_config.py:98 | `int(str(i)) == i` for every integer |
| PyStr.IntToStringInjective | gcam_config/gcam_config.py:121 | different integers write different texts |
| PyStr.ReplaceWithoutDotDot | gcam_config/gcam_config.py:141 | a text without `..` is left unchanged by the replace |
| PyStr.ReplaceByItself | gcam_config/gcam_config.py:141 | replacing `..` by `..` changes nothing |
| PyStr.ReplaceThreeDots | gcam_config/gcam_config.py:141 | occurrences are taken left to right without overlap: `...` becomes `base.` |
| PyStr.NoDotDotConcat | gcam_config/gcam_config.py:141 | joining two texts without `..` makes none unless the seam is `.` followed by `.` |
| PyStr.ReplaceFirstChar | gcam_config/gcam_config.py:141 | a text that does not start with `.` keeps its first character |
| PyStr.ReplaceRemovesAll | gcam_config/gcam_config.py:141 | with a base without dots, no `..` survives the replace |
| ConfigDoc.Find | gcam_config/gcam_config.py:89 | the result is the first entry that is a `Value` with that `name`; no result means there is none |
| ConfigDoc.FindIgnoresText | gcam_config/gcam_config.py:89 | lookup depends only on tags and attributes, never on texts |
| ConfigDoc.SetText | gcam_config/gcam_config.py:90 | writing a text leaves every tag and attribute of the section as it was |
| ConfigDoc.SetTextLookup | gcam_config/gcam_config.py:89-90 | the written entry reads back the new text, every other name reads as before, and no other entry changes |
| ConfigDoc.ScenarioNameRoundTrip | gcam_config/gcam_config.py:88-94 | `get_scenario_name()` after `set_scenario_name(n)` is `n`, and only `Strings` changes |
| ConfigDoc.MaxParallelismEffect | gcam_config/gcam_config.py:96-98 | `max-parallelism` then reads a text that parses back to the integer; no other entry or section changes |
| ConfigDoc.SetFileEffect | gcam_config/gcam_config.py:100-107 | with no argument supplied nothing changes, even when the entry is missing; otherwise only the entry found changes: its text if a path is given, `write-output` and `append-scenario-name` if given, the other attributes and the tag never |
| ConfigDoc.DisableOutputsEffect | gcam_config/gcam_config.py:115-117 | afterwards no file entry has `write-output="1"`; those that had it now have `"0"` and are otherwise unchanged; all other entries are unchanged |
| ConfigDoc.DisableOutputsIdempotent | gcam_config/gcam_config.py:115-117 | disabling twice is disabling once |
| ConfigDoc.TargetFinderEffect | gcam_config/gcam_config.py:119-128 | only `Bools` and `Files` change, no entry is added or removed, and `Files` is untouched when no path is given |
| ConfigDoc.TargetFinderFlag | gcam_config/gcam_config.py:119-123 | `find-path` reads the new mode; every other flag reads as before |
| ConfigDoc.TargetFinderFile | gcam_config/gcam_config.py:119-128 | the policy file reads the given path, or is untouched when none is given; every other file reads as before |
| ConfigDoc.AddScenarioComponentsTwice | gcam_config/gcam_config.py:134-137 | adding `a`, then `b`, is adding `a + b`, and the earlier components stay in front |
| ConfigDoc.ChangeBaseInputPathEffect | gcam_config/gcam_config.py:139-143 | exactly the three base-input files and the `Value` components are rewritten, by replacing `..`; everything else is unchanged |
| ConfigDoc.ChangeBaseWithoutDotDot | gcam_config/gcam_config.py:139-143 | a document whose base paths contain no `..` is left unchanged |
| ConfigDoc.ChangeBaseIdempotent | gcam_config/gcam_config.py:139-143 | with a base without dots, the rewrite removes every `..` and a second rewrite changes nothing |
| GcamConfig.Config.constructor | gcam_config/gcam_config.py:51-55 | the object holds the given file, directory, and parsed document |
| GcamConfig.Config.Copy | gcam_config/gcam_config.py:33 | `deepcopy` gives a new object with an equal document |
| GcamConfig.Config.SetScenarioName | gcam_config/gcam_config.py:88-90 | the document becomes `ConfigDoc.SetScenarioName` of the old one |
| GcamConfig.Config.GetScenarioName | gcam_config/gcam_config.py:92-94 | returns the text of `scenarioName`, which may be absent |
| GcamConfig.Config.SetMaxParallelism | gcam_config/gcam_config.py:96-98 | the document becomes `ConfigDoc.SetMaxParallelism` of the old one |
| GcamConfig.Config.SetFile | gcam_config/gcam_config.py:100-107 | the document becomes `ConfigDoc.SetFile` of the old one; an entry is needed only when some argument is supplied |
| GcamConfig.Config.SetXmldbOutput | gcam_config/gcam_config.py:109-110 | `set_file` on `xmldb-location` |
| GcamConfig.Config.SetRestartOutput | gcam_config/gcam_config.py:112-113 | `set_file` on `restart` |
| GcamConfig.Config.DisableOutputs | gcam_config/gcam_config.py:115-117 | the loop over the files leaves the document equal to `ConfigDoc.DisableOutputs` of the old one |
| GcamConfig.Config.SetBatchMode | gcam_config/gcam_config.py:119-121 | the document becomes `ConfigDoc.SetBatchMode` of the old one |
| GcamConfig.Config.SetTargetFinderMode | gcam_config/gcam_config.py:123-128 | the document becomes `ConfigDoc.SetTargetFinderMode` of the old one |
| GcamConfig.Config.ClearScenarioComponents | gcam_config/gcam_config.py:130-132 | no component and no comment is left |
| GcamConfig.Config.AddScenarioComponents | gcam_config/gcam_config.py:134-137 | the append loop leaves the old components followed by the new ones, in order |
| GcamConfig.Config.ChangeBaseInputPath | gcam_config/gcam_config.py:139-143 | the two rewrite loops leave the document equal to `ConfigDoc.ChangeBaseInputPath` of the old one |
| GcamConfig.Config.Hash | gcam_config/gcam_config.py:57-83 | the digest is `xxh32` of the bytes of the whole token stream: the file, each component in order, then the root input triple |
| GcamConfig.FeedComponent | gcam_config/gcam_config.py:63-77 | one loop turn feeds exactly the bytes of that component's tokens; a comment feeds nothing |
| GcamConfig.FeedContent | gcam_config/gcam_config.py:65-73 | a component's text is fed as a file, a directory, or a literal value, according to what the path is; nothing is fed for another kind of path or an empty text |
| Fingerprint.ComponentTokensAppend | gcam_config/gcam_config.py:63-77 | the components' stream is compositional over concatenation |
| Fingerprint.FedBytesAppend | gcam_config/gcam_config.py:57-83 | feeding in two parts feeds the concatenation |
| Fingerprint.HashStep | gcam_config/gcam_config.py:63-77 | each loop turn extends the bytes fed so far by exactly one component's bytes |
| Fingerprint.EntryBytes | gcam_config/gcam_config.py:65-77 | a component feeds its content, then its tag if nonempty, then its attributes if any |
| Fingerprint.FedBytesThree | gcam_config/gcam_config.py:78-81 | the closing triple feeds three chunks in order |
| Fingerprint.FeedBytesSplit | gcam_config/gcam_config.py:57-83 | the bytes of the stream are those up to the last component, then the closing triple's |
| Fingerprint.CommentsContributeNothing | gcam_config/gcam_config.py:64 | dropping the comments from the components leaves the stream unchanged |
| Fingerprint.NoEmptyAttrToken | gcam_config/gcam_config.py:76-77 | no component contributes an attribute token for an empty attribute map |
| Fingerprint.ComponentTokensSplit | gcam_config/gcam_config.py:63-77 | the component stream is the prefix's, then component `k`'s, then the suffix's |
| Fingerprint.FeedTokensSplit | gcam_config/gcam_config.py:57-83 | the whole stream splits at any component the same way |
| Fingerprint.ReplaceComponentSensitivity | gcam_config/gcam_config.py:63-77 | replacing one component leaves the stream unchanged exactly when the two components have the same tokens |
| Fingerprint.AttributePresenceChangesFeed | gcam_config/gcam_config.py:76-77 | giving a component without attributes one attribute, with any value, changes the stream |
| Fingerprint.TagChangesFeed | gcam_config/gcam_config.py:74-75 | changing a component's tag changes the stream |
| Fingerprint.LiteralChangesFeed | gcam_config/gcam_config.py:72-73 | changing the text of a component whose path is missing changes the stream |
| Fingerprint.Elements | gcam_config/gcam_config.py:64 | the comment-free components are all elements |
| Product.Pick | gcam_config/gcam_config.py:29 | an index vector picks one member of each axis |
| Product.PrefixLength | gcam_config/gcam_config.py:29 | prefixing each of `m` tuples with each of `n` members gives `n*m` tuples |
| Product.PrefixAt | gcam_config/gcam_config.py:29 | position `i*m + j` holds member `i` in front of tuple `j` |
| Product.PrefixMember | gcam_config/gcam_config.py:29 | a tuple appears exactly when its head is a member and its tail a tuple |
| Product.CombosLength | gcam_config/gcam_config.py:29 | `product` yields exactly the product of the axis sizes tuples (one for no axes) |
| Product.CombosMembership | gcam_config/gcam_config.py:29 | a tuple appears exactly when it takes one member of each axis, in axis order |
| Product.RankBound | gcam_config/gcam_config.py:29 | the mixed-radix rank of an index vector is a valid position |
| Product.CombosAt | gcam_config/gcam_config.py:29-31 | the tuple at the rank of an index vector is the tuple that vector picks |
| Product.RankLex | gcam_config/gcam_config.py:29-31 | lexicographically smaller index vectors come earlier: the last axis varies fastest |
| Product.CardZero | gcam_config/gcam_config.py:29 | an empty axis makes the product empty |
| Product.TwoByTwo | gcam_config/gcam_config.py:29 | the tuples of two axes of two come in the order `(a,r) (a,v) (b,r) (b,v)` |
| Batch.FileSets | gcam_config/gcam_config.py:25 | `findall("./FileSet")` returns only FileSets |
| Batch.FileSetsMembers | gcam_config/gcam_config.py:25 | an alternative is kept exactly when it is a member and a FileSet |
| Batch.RunnersMembers | gcam_config/gcam_config.py:26 | an alternative is a runner exactly when some `runner-set` has it as a member |
| Batch.ComponentAxesShape | gcam_config/gcam_config.py:24-25 | one axis per `ComponentSet`, holding FileSets only |
| Batch.AxesCount | gcam_config/gcam_config.py:23-28 | the axis count is the number of component sets, plus one when there is any runner, and the runners are the last axis |
| Batch.CombosWellShaped | gcam_config/gcam_config.py:23-31 | every tuple has one alternative per axis, and only the last one can be other than a FileSet |
| Batch.EmptyComponentSet | gcam_config/gcam_config.py:25-29 | a component set without FileSets yields no configuration at all |
| Batch.ComponentAxesPosition | gcam_config/gcam_config.py:24-25 | the component set at position `k` is axis number `CountSets(items[..k])`, the count of component sets before it, and that axis holds its FileSets: axes keep document order |
| Batch.NoAxes | gcam_config/gcam_config.py:23-29 | with no component set and no runner there is exactly one, empty, tuple |
| Batch.NameList | gcam_config/gcam_config.py:35-44 | one name per alternative |
| Batch.NameListAppend | gcam_config/gcam_config.py:34-44 | the name list of a joined tuple is the join of the two lists |
| Batch.ConcatAppend | gcam_config/gcam_config.py:45 | `"".join` of a concatenation is the concatenation of the joins |
| Batch.NamesAppend | gcam_config/gcam_config.py:34-45 | the scenario name of a joined tuple is the two names, concatenated |
| Batch.UnnamedAltAddsNothing | gcam_config/gcam_config.py:42-43 | a `single-scenario-runner`, or any other tag, adds nothing to the name |
| Batch.NamesOfPair | gcam_config/gcam_config.py:34-45 | the name of a pair is the first name, then the second |
| Batch.AltReadyIgnoresText | gcam_config/gcam_config.py:36-41 | whether an alternative can be applied depends only on which entries exist |
| Batch.ApplyAlt | gcam_config/gcam_config.py:36-43 | an alternative never adds or removes an entry and never touches `Ints` or `Strings` |
| Batch.ApplyAlts | gcam_config/gcam_config.py:34-44 | the same holds for a whole tuple |
| Batch.Normalize | gcam_config/gcam_config.py:19-20 | normalising touches only `Bools` and adds or removes no entry |
| Batch.NormalizeFlags | gcam_config/gcam_config.py:19-20 | `BatchMode` and `find-path` read `"0"`; every other flag reads as before |
| Batch.ExpandComponents | gcam_config/gcam_config.py:36-38 | the components become the base's, followed by the children of each FileSet of the tuple, in order |
| Batch.FileSetsOnlyAddComponents | gcam_config/gcam_config.py:36-38 | FileSets change nothing but the components |
| Batch.ExpandName | gcam_config/gcam_config.py:45-46 | the scenario name is the concatenated names of the tuple; no other string and no integer changes |
| Batch.ExpandFlag | gcam_config/gcam_config.py:39-41 | `find-path` reads `"1"` exactly when the tuple ends in a `Value`; every other flag reads as before |
| Batch.ExpandFile | gcam_config/gcam_config.py:39-41 | the policy file reads the text of a trailing `Value` when it has one; every other file reads as before |
| Batch.ReadyWhenAltsReady | gcam_config/gcam_config.py:31-46 | a base with a scenario name, named alternatives, and a policy entry where needed expands every tuple without error |
| Batch.FourScenarios | gcam_config/gcam_config.py:16-48 | two FileSets `A`, `B` and runners `single-scenario-runner`, `Value P` give the scenarios `A`, `AP`, `B`, `BP`, in that order |
| Batch.NameCollision | gcam_config/gcam_config.py:36-46 | names are joined with no separator: the FileSets `A`, `AB` against `BC`, `C` give two different tuples both named `ABC` |
| Batch.CollectAxes | gcam_config/gcam_config.py:23-28 | the loop over component sets, then the runner axis, builds exactly `Axes` |
| Batch.ExpandInto | gcam_config/gcam_config.py:32-46 | the loop over one tuple leaves the copy equal to `Expand` of its document |
| Batch.ExpandAll | gcam_config/gcam_config.py:30-47 | one fresh, distinct copy of the base per tuple, in product order, each expanded by its tuple |
| Batch.GenerateBatchPermutations | gcam_config/gcam_config.py:16-48 | the caller's configuration is normalised in place; the result has one fresh, distinct configuration per tuple of the product, in product order, each the normalised base expanded by its tuple |

## Left out

- Parsing and writing XML (`ET.parse`, `save_xml`, the parsing in `__init__` and of the batch file) are I/O. Documents and batch files are given as values.
- Passing a path string as `base_config`, which makes the code build the object from a file, is I/O and is not modelled.
- The climate rewrite of `change_base_input_path` (`fix_climate_xml=True`) reads and writes another file. It is I/O and not modelled; `ChangeBaseInputPath` is the `fix_climate_xml=False` behaviour.
- `os.path.join`, `exists`, `isfile` and `isdir` are the oracle `Fingerprint.Env`.
- The digests `FileType`, `DirType`, `ValueType` and `ObjectType` come from another package, and `xxh32` with its seed is a foreign hash. They are the uninterpreted functions of `Fingerprint.Digests`.
- GcamConfig.Config.Hash: digests are nonnegative. A negative Python `hash()` would make `hash_to_bytes` raise `OverflowError`, and that case is not modelled.
- The streaming hasher is modelled by the sequence of bytes fed to it: its digest is `xxh32` of their concatenation.
- GcamConfig.Config.SetFile: `write` and `append_scenario` are modelled as integers. A boolean argument (`str(True)` is `"True"`) is not modelled.
- GcamConfig.Config.SetBatchMode, GcamConfig.Config.SetTargetFinderMode: modes are integers. Boolean modes are not modelled.
- Attribute order: an entry's attributes are a `map`, so the digest of `ObjectType(dict(component.attrib))` (lines 77 and 81) is taken not to depend on the order in which attributes are written.
- Processing instructions among the `ScenarioComponents` children cannot be represented: a node is a comment or an element. The loop at line 64 skips only comments, so in the source such a node would feed tokens.
- Comments inside `Bools`, `Ints`, `Strings` and `Files` are not represented. No modelled lookup can return one.
- Comments among the children of a `ComponentSet` or a `runner-set` are not represented, since neither `findall` query returns them. Comments inside a `FileSet` are kept and copied.
- Sections other than the five above, and attributes other than those the package reads or writes, play no part.
- Exceptions are preconditions: a missing entry, a `None` text where `.replace` is called, and a `None` name in a tuple.
- Fingerprint.InputPresent: `__hash__` needs a `xmlInputFileName` entry in `Files` (without one, `[0]` raises `IndexError`, line 78) and a text on it (a `None` text makes `os.path.join` raise `TypeError`, line 79). Both are preconditions, not modelled errors.
- A document without a `ScenarioComponents` section cannot be represented: `ConfigDoc.Doc` always has a (possibly empty) component sequence, so the `AttributeError` the source raises then is not modelled.
- GcamConfig.Config.constructor: the directory is an argument. The source computes it as `abspath(dirname(config_in))` (line 54), which depends on the working directory, and that computation is not modelled.
- `setup.py` is packaging and is not part of this model.

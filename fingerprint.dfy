/**
 * What `GcamConfig.__hash__` (gcam_config/gcam_config.py:57-83) feeds its
 * streaming `xxh32` hasher, as a pure function of the document.
 *
 * The filesystem queries (`os.path.join`, `exists`, `isfile`, `isdir`) are an
 * oracle `Env`; the content-addressing primitives `FileType`, `DirType`,
 * `ValueType`, `ObjectType` (through Python's `hash`) and the seeded `xxh32`
 * are the uninterpreted functions of `Digests`.  The stream is first stated
 * as a sequence of symbolic tokens; each token is then turned into bytes by
 * `hash_to_bytes` of its digest.
 */
module Fingerprint {
  import opened Maybe
  import opened ConfigDoc
  import HashBytes

  /** What the filesystem says of a path: a regular file, a directory, something else, or nothing. */
  datatype PathKind = RegularFile | Directory | OtherKind | Missing

  datatype Env = Env(kind: string -> PathKind, join: (string, string) -> string)

  /** One `x.update(...)`: which primitive digests which argument. */
  datatype Token =
    | FileTok(path: string)
    | DirTok(path: string)
    | ValueTok(value: string)
    | AttrTok(attrs: map<string, string>)

  type U32 = x: int | 0 <= x < 0x1_0000_0000

  datatype Digests = Digests(
    file: string -> nat,
    dir: string -> nat,
    value: string -> nat,
    mapping: map<string, string> -> nat,
    xxh32: seq<HashBytes.Byte> -> U32)

  /** The content token of a component: only for non-empty text, chosen by what the path is. */
  function ContentTokens(e: Entry, dir: string, env: Env): seq<Token> {
    if e.text.Some? && e.text.value != "" then
      var p := env.join(dir, e.text.value);
      match env.kind(p)
      case RegularFile => [FileTok(p)]
      case Directory => [DirTok(p)]
      case Missing => [ValueTok(e.text.value)]
      case OtherKind => []
    else []
  }

  function EntryTokens(e: Entry, dir: string, env: Env): seq<Token> {
    ContentTokens(e, dir, env)
    + (if e.tag != "" then [ValueTok(e.tag)] else [])
    + (if e.attrs != map[] then [AttrTok(e.attrs)] else [])
  }

  function NodeTokens(n: Node, dir: string, env: Env): seq<Token> {
    match n
    case Comment(_) => []
    case Elem(e) => EntryTokens(e, dir, env)
  }

  /** The tokens of the scenario components, in document order. */
  function ComponentTokens(s: seq<Node>, dir: string, env: Env): seq<Token> {
    if s == [] then []
    else ComponentTokens(s[..|s| - 1], dir, env) + NodeTokens(s[|s| - 1], dir, env)
  }

  /** `xpath("./Files/Value[@name='xmlInputFileName']")[0]` exists and has a text. */
  predicate InputPresent(d: Doc) {
    Has(d.files, "xmlInputFileName") && Text(d.files, "xmlInputFileName").Some?
  }

  function InputEntry(d: Doc): Entry
    requires InputPresent(d)
  {
    d.files[At(d.files, "xmlInputFileName")]
  }

  /** The closing triple, fed whatever the components were; its attribute token is unconditional. */
  function InputTokens(d: Doc, dir: string, env: Env): seq<Token>
    requires InputPresent(d)
  {
    var e := InputEntry(d);
    [FileTok(env.join(dir, e.text.value)), ValueTok(e.tag), AttrTok(e.attrs)]
  }

  /** The whole stream: the configuration file itself, the components, then the root input. */
  function FeedTokens(file: string, dir: string, d: Doc, env: Env): seq<Token>
    requires InputPresent(d)
  {
    [FileTok(file)] + ComponentTokens(d.components, dir, env) + InputTokens(d, dir, env)
  }

  function TokenDigest(t: Token, h: Digests): nat {
    match t
    case FileTok(p) => h.file(p)
    case DirTok(p) => h.dir(p)
    case ValueTok(v) => h.value(v)
    case AttrTok(m) => h.mapping(m)
  }

  /** The bytes one `x.update(hash_to_bytes(hash(...)))` adds. */
  function Chunk(t: Token, h: Digests): seq<HashBytes.Byte> {
    HashBytes.HashToBytes(TokenDigest(t, h))
  }

  /** All bytes fed, in order: a streaming hash of them equals a hash of their concatenation. */
  function FedBytes(ts: seq<Token>, h: Digests): seq<HashBytes.Byte> {
    if ts == [] then [] else FedBytes(ts[..|ts| - 1], h) + Chunk(ts[|ts| - 1], h)
  }

  /** `x.intdigest()` at the end of `__hash__`. */
  function Digest(file: string, dir: string, d: Doc, env: Env, h: Digests): U32
    requires InputPresent(d)
  {
    h.xxh32(FedBytes(FeedTokens(file, dir, d, env), h))
  }

  // ----- properties of the stream -----

  /** The stream is compositional: components concatenate to concatenated streams. */
  lemma {:induction false} ComponentTokensAppend(a: seq<Node>, b: seq<Node>, dir: string, env: Env)
    ensures ComponentTokens(a + b, dir, env) == ComponentTokens(a, dir, env) + ComponentTokens(b, dir, env)
    decreases |b|
  {
    if b != [] {
      var init := b[..|b| - 1];
      assert (a + b)[..|a + b| - 1] == a + init;
      ComponentTokensAppend(a, init, dir, env);
    } else {
      assert a + b == a;
    }
  }

  lemma {:induction false} FedBytesAppend(a: seq<Token>, b: seq<Token>, h: Digests)
    ensures FedBytes(a + b, h) == FedBytes(a, h) + FedBytes(b, h)
    decreases |b|
  {
    if b != [] {
      var init := b[..|b| - 1];
      assert (a + b)[..|a + b| - 1] == a + init;
      FedBytesAppend(a, init, h);
    } else {
      assert a + b == a;
    }
  }

  /** One more component extends the stream by that component's tokens. */
  lemma ComponentTokensSnoc(s: seq<Node>, i: nat, dir: string, env: Env)
    requires i < |s|
    ensures ComponentTokens(s[..i + 1], dir, env) == ComponentTokens(s[..i], dir, env) + NodeTokens(s[i], dir, env)
  {
    assert s[..i + 1][..i] == s[..i];
  }

  lemma FedBytesOne(t: Token, h: Digests)
    ensures FedBytes([t], h) == Chunk(t, h)
  {
    assert [t][..0] == [];
  }

  /** The bytes of the whole stream: those up to the components, then the closing triple's. */
  lemma FeedBytesSplit(file: string, dir: string, d: Doc, env: Env, h: Digests)
    requires InputPresent(d)
    ensures FedBytes(FeedTokens(file, dir, d, env), h)
            == FedBytes([FileTok(file)] + ComponentTokens(d.components, dir, env), h)
               + FedBytes(InputTokens(d, dir, env), h)
  {
    FedBytesAppend([FileTok(file)] + ComponentTokens(d.components, dir, env), InputTokens(d, dir, env), h);
  }

  lemma FedBytesThree(ts: seq<Token>, h: Digests)
    requires |ts| == 3
    ensures FedBytes(ts, h) == Chunk(ts[0], h) + Chunk(ts[1], h) + Chunk(ts[2], h)
  {
    var two, one := ts[..2], ts[..1];
    assert two[..1] == one && one[..0] == [];
    assert FedBytes(one, h) == Chunk(ts[0], h);
    assert FedBytes(two, h) == FedBytes(one, h) + Chunk(ts[1], h);
    assert FedBytes(ts, h) == FedBytes(two, h) + Chunk(ts[2], h);
  }

  /** The tokens fed before component `i + 1`: those fed before `i`, then `i`'s own. */
  lemma PrefixTokensSnoc(file: string, s: seq<Node>, i: nat, dir: string, env: Env)
    requires i < |s|
    ensures [FileTok(file)] + ComponentTokens(s[..i + 1], dir, env)
            == ([FileTok(file)] + ComponentTokens(s[..i], dir, env)) + NodeTokens(s[i], dir, env)
  {
    ComponentTokensSnoc(s, i, dir, env);
    AppendSplit([FileTok(file)], ComponentTokens(s[..i + 1], dir, env), ComponentTokens(s[..i], dir, env), NodeTokens(s[i], dir, env));
  }

  lemma AppendSplit(f: seq<Token>, x: seq<Token>, c: seq<Token>, n: seq<Token>)
    requires x == c + n
    ensures f + x == (f + c) + n
  {
  }

  /** One turn of the component loop of `__hash__`: the bytes fed so far grow by one component's. */
  lemma HashStep(file: string, s: seq<Node>, i: nat, dir: string, env: Env, h: Digests)
    requires i < |s|
    ensures FedBytes([FileTok(file)] + ComponentTokens(s[..i], dir, env), h) + FedBytes(NodeTokens(s[i], dir, env), h)
            == FedBytes([FileTok(file)] + ComponentTokens(s[..i + 1], dir, env), h)
  {
    PrefixTokensSnoc(file, s, i, dir, env);
    FedBytesAppend([FileTok(file)] + ComponentTokens(s[..i], dir, env), NodeTokens(s[i], dir, env), h);
  }

  /** The bytes of a component: its content's, then its tag's, then its attributes'. */
  lemma EntryBytes(e: Entry, dir: string, env: Env, h: Digests)
    ensures FedBytes(EntryTokens(e, dir, env), h)
            == FedBytes(ContentTokens(e, dir, env), h)
               + (if e.tag != "" then Chunk(ValueTok(e.tag), h) else [])
               + (if e.attrs != map[] then Chunk(AttrTok(e.attrs), h) else [])
  {
    var c := ContentTokens(e, dir, env);
    var t: seq<Token> := if e.tag != "" then [ValueTok(e.tag)] else [];
    var a: seq<Token> := if e.attrs != map[] then [AttrTok(e.attrs)] else [];
    FedBytesAppend(c + t, a, h);
    FedBytesAppend(c, t, h);
    if t != [] { FedBytesOne(t[0], h); }
    if a != [] { FedBytesOne(a[0], h); }
  }

  /** The elements of a component list, comments dropped. */
  function Elements(s: seq<Node>): (r: seq<Node>)
    ensures forall i :: 0 <= i < |r| ==> r[i].Elem?
  {
    if s == [] then []
    else Elements(s[..|s| - 1]) + (if s[|s| - 1].Elem? then [s[|s| - 1]] else [])
  }

  /** Comments contribute no tokens: dropping them leaves the stream as it is. */
  lemma {:induction false} CommentsContributeNothing(s: seq<Node>, dir: string, env: Env)
    ensures ComponentTokens(Elements(s), dir, env) == ComponentTokens(s, dir, env)
  {
    if s != [] {
      var init, last := s[..|s| - 1], s[|s| - 1];
      CommentsContributeNothing(init, dir, env);
      var tail := if last.Elem? then [last] else [];
      ComponentTokensAppend(Elements(init), tail, dir, env);
      if last.Elem? {
        assert tail[..0] == [];
      }
    }
  }

  /** An attribute token is never fed for an empty attribute map by a component. */
  lemma {:induction false} NoEmptyAttrToken(s: seq<Node>, dir: string, env: Env)
    ensures AttrTok(map[]) !in ComponentTokens(s, dir, env)
  {
    if s != [] {
      NoEmptyAttrToken(s[..|s| - 1], dir, env);
    }
  }

  /** Replacing component `k` by `n` in the document. */
  function WithComponent(d: Doc, k: nat, n: Node): Doc
    requires k < |d.components|
  {
    d.(components := d.components[k := n])
  }

  lemma CancelMiddle<T>(x: seq<T>, a: seq<T>, b: seq<T>, y: seq<T>)
    requires x + a + y == x + b + y
    ensures a == b
  {
    assert |a| == |b|;
    forall i | 0 <= i < |a|
      ensures a[i] == b[i]
    {
      assert a[i] == (x + a + y)[|x| + i];
      assert b[i] == (x + b + y)[|x| + i];
    }
  }

  /** The stream of a component list around its `k`-th component. */
  lemma ComponentTokensSplit(s: seq<Node>, k: nat, dir: string, env: Env)
    requires k < |s|
    ensures ComponentTokens(s, dir, env)
            == ComponentTokens(s[..k], dir, env) + NodeTokens(s[k], dir, env) + ComponentTokens(s[k + 1..], dir, env)
  {
    assert s == s[..k] + [s[k]] + s[k + 1..];
    ComponentTokensAppend(s[..k] + [s[k]], s[k + 1..], dir, env);
    ComponentTokensAppend(s[..k], [s[k]], dir, env);
    assert [s[k]][..0] == [];
  }

  /** The whole stream around the `k`-th component. */
  lemma FeedTokensSplit(file: string, dir: string, d: Doc, env: Env, k: nat)
    requires InputPresent(d) && k < |d.components|
    ensures FeedTokens(file, dir, d, env)
            == ([FileTok(file)] + ComponentTokens(d.components[..k], dir, env))
               + NodeTokens(d.components[k], dir, env)
               + (ComponentTokens(d.components[k + 1..], dir, env) + InputTokens(d, dir, env))
  {
    ComponentTokensSplit(d.components, k, dir, env);
  }

  /**
   * The fed stream tells components apart exactly as far as their own
   * tokens do: replacing one component changes the stream if and only if
   * the new component's tokens differ from the old one's.
   */
  lemma ReplaceComponentSensitivity(file: string, dir: string, d: Doc, env: Env, k: nat, n: Node)
    requires InputPresent(d) && k < |d.components|
    ensures InputPresent(WithComponent(d, k, n))
    ensures FeedTokens(file, dir, WithComponent(d, k, n), env) == FeedTokens(file, dir, d, env)
            <==> NodeTokens(n, dir, env) == NodeTokens(d.components[k], dir, env)
  {
    var s := d.components;
    var d' := WithComponent(d, k, n);
    assert d'.files == d.files;
    assert d'.components[..k] == s[..k] && d'.components[k + 1..] == s[k + 1..];
    FeedTokensSplit(file, dir, d, env, k);
    FeedTokensSplit(file, dir, d', env, k);
    var x := [FileTok(file)] + ComponentTokens(s[..k], dir, env);
    var y := ComponentTokens(s[k + 1..], dir, env) + InputTokens(d, dir, env);
    var a, b := NodeTokens(s[k], dir, env), NodeTokens(n, dir, env);
    if FeedTokens(file, dir, d', env) == FeedTokens(file, dir, d, env) {
      CancelMiddle(x, a, b, y);
    }
  }

  /**
   * Giving an element without attributes one attribute, whatever its value
   * (the empty string included), changes the stream.
   */
  lemma AttributePresenceChangesFeed(file: string, dir: string, d: Doc, env: Env, k: nat, key: string, v: string)
    requires InputPresent(d) && k < |d.components|
    requires d.components[k].Elem? && d.components[k].entry.attrs == map[]
    ensures var e := d.components[k].entry;
      FeedTokens(file, dir, WithComponent(d, k, Elem(e.(attrs := map[key := v]))), env) != FeedTokens(file, dir, d, env)
  {
    var e := d.components[k].entry;
    var n := Elem(e.(attrs := map[key := v]));
    assert key in n.entry.attrs;
    var c := ContentTokens(e, dir, env);
    var t := if e.tag != "" then [ValueTok(e.tag)] else [];
    assert ContentTokens(n.entry, dir, env) == c;
    assert NodeTokens(d.components[k], dir, env) == c + t;
    assert NodeTokens(n, dir, env) == c + t + [AttrTok(n.entry.attrs)];
    ReplaceComponentSensitivity(file, dir, d, env, k, n);
  }

  /** Renaming a component's tag changes the stream. */
  lemma TagChangesFeed(file: string, dir: string, d: Doc, env: Env, k: nat, tag: string)
    requires InputPresent(d) && k < |d.components|
    requires d.components[k].Elem? && d.components[k].entry.tag != "" && tag != "" && tag != d.components[k].entry.tag
    ensures var e := d.components[k].entry;
      FeedTokens(file, dir, WithComponent(d, k, Elem(e.(tag := tag))), env) != FeedTokens(file, dir, d, env)
  {
    var e := d.components[k].entry;
    var n := Elem(e.(tag := tag));
    var c := ContentTokens(e, dir, env);
    assert ContentTokens(n.entry, dir, env) == c;
    assert NodeTokens(n, dir, env)[|c|] == ValueTok(tag);
    assert NodeTokens(d.components[k], dir, env)[|c|] == ValueTok(e.tag);
    ReplaceComponentSensitivity(file, dir, d, env, k, n);
  }

  /**
   * A literal that names no existing path is fed as a value: changing the
   * text of such a component to another non-existent literal changes the stream.
   */
  lemma LiteralChangesFeed(file: string, dir: string, d: Doc, env: Env, k: nat, t: string)
    requires InputPresent(d) && k < |d.components|
    requires d.components[k].Elem?
    requires var e := d.components[k].entry;
      e.text.Some? && e.text.value != "" && env.kind(env.join(dir, e.text.value)) == Missing
    requires t != "" && env.kind(env.join(dir, t)) == Missing && Some(t) != d.components[k].entry.text
    ensures var e := d.components[k].entry;
      FeedTokens(file, dir, WithComponent(d, k, Elem(e.(text := Some(t)))), env) != FeedTokens(file, dir, d, env)
  {
    var e := d.components[k].entry;
    var n := Elem(e.(text := Some(t)));
    assert NodeTokens(n, dir, env)[0] == ValueTok(t);
    assert NodeTokens(d.components[k], dir, env)[0] == ValueTok(e.text.value);
    ReplaceComponentSensitivity(file, dir, d, env, k, n);
  }
}

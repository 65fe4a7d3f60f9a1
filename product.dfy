/**
 * `itertools.product(*axes)`, as `generate_batch_permutations` uses it
 * (gcam_config/gcam_config.py:29-31): every way of choosing one member of
 * each axis, the first axis varying slowest and the last fastest.
 */
module Product {

  /** `[x] + c` for every `x` of `xs` (outer) and every `c` of `cs` (inner). */
  function Prefix<T>(xs: seq<T>, cs: seq<seq<T>>): seq<seq<T>> {
    if xs == [] then []
    else seq(|cs|, j requires 0 <= j < |cs| => [xs[0]] + cs[j]) + Prefix(xs[1..], cs)
  }

  /** The tuples of the product, in the order `product` yields them. */
  function Combos<T>(axes: seq<seq<T>>): seq<seq<T>> {
    if axes == [] then [[]] else Prefix(axes[0], Combos(axes[1..]))
  }

  /** The number of tuples: the product of the axis sizes (1 for no axes at all). */
  function Card<T>(axes: seq<seq<T>>): nat {
    if axes == [] then 1 else |axes[0]| * Card(axes[1..])
  }

  /** `c` takes one member from each axis, in axis order. */
  predicate IsChoice<T(==)>(axes: seq<seq<T>>, c: seq<T>) {
    |c| == |axes| && forall k :: 0 <= k < |c| ==> c[k] in axes[k]
  }

  /** A position in each axis. */
  predicate IsIndex<T>(axes: seq<seq<T>>, ix: seq<nat>) {
    |ix| == |axes| && forall k :: 0 <= k < |ix| ==> ix[k] < |axes[k]|
  }

  /** The tuple an index vector selects. */
  function Pick<T(==)>(axes: seq<seq<T>>, ix: seq<nat>): (c: seq<T>)
    requires IsIndex(axes, ix)
    ensures IsChoice(axes, c)
  {
    seq(|ix|, k requires 0 <= k < |ix| => axes[k][ix[k]])
  }

  /** The mixed-radix number of an index vector, the last axis the least significant digit. */
  function Rank<T>(axes: seq<seq<T>>, ix: seq<nat>): nat
    requires |ix| == |axes|
  {
    if ix == [] then 0 else ix[0] * Card(axes[1..]) + Rank(axes[1..], ix[1..])
  }

  /** Lexicographic order on index vectors. */
  predicate LexLess(a: seq<nat>, b: seq<nat>) {
    |a| > 0 && |b| > 0 && (a[0] < b[0] || (a[0] == b[0] && LexLess(a[1..], b[1..])))
  }

  lemma MulMono(a: nat, b: nat, c: nat)
    requires a <= b
    ensures a * c <= b * c
  {
  }

  lemma {:induction false} PrefixLength<T>(xs: seq<T>, cs: seq<seq<T>>)
    ensures |Prefix(xs, cs)| == |xs| * |cs|
  {
    if xs != [] {
      PrefixLength(xs[1..], cs);
    }
  }

  /** Block `i` of the prefixed list holds `xs[i]` in front of each of `cs`, in order. */
  lemma {:induction false} PrefixAt<T>(xs: seq<T>, cs: seq<seq<T>>, i: nat, j: nat)
    requires i < |xs| && j < |cs|
    ensures i * |cs| + j < |Prefix(xs, cs)|
    ensures Prefix(xs, cs)[i * |cs| + j] == [xs[i]] + cs[j]
  {
    PrefixLength(xs, cs);
    MulMono(i + 1, |xs|, |cs|);
    if i > 0 {
      PrefixAt(xs[1..], cs, i - 1, j);
      assert i * |cs| + j == |cs| + ((i - 1) * |cs| + j);
    }
  }

  lemma {:induction false} PrefixMember<T>(xs: seq<T>, cs: seq<seq<T>>, c: seq<T>)
    ensures c in Prefix(xs, cs) <==> |c| > 0 && c[0] in xs && c[1..] in cs
  {
    if xs != [] {
      var block := seq(|cs|, j requires 0 <= j < |cs| => [xs[0]] + cs[j]);
      PrefixMember(xs[1..], cs, c);
      assert c in Prefix(xs, cs) <==> c in block || c in Prefix(xs[1..], cs);
      if c in block {
        var j :| 0 <= j < |block| && block[j] == c;
        assert c[1..] == cs[j];
      }
      if |c| > 0 && c[0] == xs[0] && c[1..] in cs {
        var j :| 0 <= j < |cs| && cs[j] == c[1..];
        assert block[j] == c;
      }
      if |c| > 0 {
        assert xs == [xs[0]] + xs[1..];
        assert c[0] in xs <==> c[0] == xs[0] || c[0] in xs[1..];
      }
    }
  }

  /** There are exactly `Card(axes)` tuples. */
  lemma {:induction false} CombosLength<T>(axes: seq<seq<T>>)
    ensures |Combos(axes)| == Card(axes)
  {
    if axes != [] {
      CombosLength(axes[1..]);
      PrefixLength(axes[0], Combos(axes[1..]));
    }
  }

  /** A tuple is produced exactly when it chooses one member of each axis. */
  lemma {:induction false} CombosMembership<T>(axes: seq<seq<T>>, c: seq<T>)
    ensures c in Combos(axes) <==> IsChoice(axes, c)
  {
    if axes == [] {
      assert c in Combos(axes) <==> c == [];
    } else {
      PrefixMember(axes[0], Combos(axes[1..]), c);
      if c == [] {
        return;
      }
      CombosMembership(axes[1..], c[1..]);
      if IsChoice(axes, c) {
        assert IsChoice(axes[1..], c[1..]) by {
          forall k | 0 <= k < |c[1..]|
            ensures c[1..][k] in axes[1..][k]
          {
            assert c[k + 1] in axes[k + 1];
          }
        }
      }
      if |c| > 0 && c[0] in axes[0] && IsChoice(axes[1..], c[1..]) {
        forall k | 0 <= k < |c|
          ensures c[k] in axes[k]
        {
          if k > 0 {
            assert c[1..][k - 1] in axes[1..][k - 1];
          }
        }
      }
    }
  }

  /** Dropping the first axis and its position leaves an index vector. */
  lemma IsIndexTail<T>(axes: seq<seq<T>>, ix: seq<nat>)
    requires IsIndex(axes, ix) && ix != []
    ensures IsIndex(axes[1..], ix[1..])
  {
    forall k | 0 <= k < |ix[1..]|
      ensures ix[1..][k] < |axes[1..][k]|
    {
      assert ix[k + 1] < |axes[k + 1]|;
    }
  }

  /** A leading digit below `n` followed by a remainder below `c` stays below `n * c`. */
  lemma DigitBound(a: nat, n: nat, c: nat, r: nat)
    requires a < n && r < c
    ensures a * c + r < n * c
  {
    MulMono(a + 1, n, c);
    assert (a + 1) * c == a * c + c;
  }

  /** A rank names a tuple position. */
  lemma {:induction false} RankBound<T>(axes: seq<seq<T>>, ix: seq<nat>)
    requires IsIndex(axes, ix)
    ensures Rank(axes, ix) < Card(axes)
  {
    if ix != [] {
      IsIndexTail(axes, ix);
      RankBound(axes[1..], ix[1..]);
      DigitBound(ix[0], |axes[0]|, Card(axes[1..]), Rank(axes[1..], ix[1..]));
    }
  }

  /** The tuple at position `Rank(axes, ix)` is the one `ix` picks: the order is mixed radix. */
  lemma {:induction false} CombosAt<T>(axes: seq<seq<T>>, ix: seq<nat>)
    requires IsIndex(axes, ix)
    ensures Rank(axes, ix) < |Combos(axes)|
    ensures Combos(axes)[Rank(axes, ix)] == Pick(axes, ix)
  {
    CombosLength(axes);
    RankBound(axes, ix);
    if ix != [] {
      var rest, irest := axes[1..], ix[1..];
      IsIndexTail(axes, ix);
      CombosAt(rest, irest);
      CombosLength(rest);
      PrefixAt(axes[0], Combos(rest), ix[0], Rank(rest, irest));
      assert Pick(axes, ix) == [axes[0][ix[0]]] + Pick(rest, irest);
    }
  }

  /** Earlier index vectors, lexicographically, come earlier: the last axis varies fastest. */
  lemma {:induction false} RankLex<T>(axes: seq<seq<T>>, ix: seq<nat>, iy: seq<nat>)
    requires IsIndex(axes, ix) && IsIndex(axes, iy) && LexLess(ix, iy)
    ensures Rank(axes, ix) < Rank(axes, iy)
  {
    var rest := axes[1..];
    IsIndexTail(axes, ix);
    IsIndexTail(axes, iy);
    var c, a, b := Card(rest), ix[0], iy[0];
    var rx, ry := Rank(rest, ix[1..]), Rank(rest, iy[1..]);
    assert Rank(axes, ix) == a * c + rx && Rank(axes, iy) == b * c + ry;
    if a < b {
      RankBound(rest, ix[1..]);
      DigitBound(a, b, c, rx);
      MulMono(b, b, c);
    } else {
      RankLex(rest, ix[1..], iy[1..]);
    }
  }

  /** An empty axis empties the whole product. */
  lemma {:induction false} CardZero<T>(axes: seq<seq<T>>, k: nat)
    requires k < |axes| && axes[k] == []
    ensures Card(axes) == 0 && Combos(axes) == []
  {
    CombosLength(axes);
    if k > 0 {
      CardZero(axes[1..], k - 1);
    }
  }
  /** Two axes of two: the second axis varies fastest. */
  lemma TwoByTwo<T>(a: T, b: T, r: T, v: T)
    ensures Combos([[a, b], [r, v]]) == [[a, r], [a, v], [b, r], [b, v]]
  {
    var none: seq<seq<T>> := [];
    var unit: seq<seq<T>> := [[]];
    assert [[a, b], [r, v]][1..] == [[r, v]] && [[r, v]][1..] == none;
    PrefixLength([r, v], unit);
    PrefixAt([r, v], unit, 0, 0);
    PrefixAt([r, v], unit, 1, 0);
    var rv := Prefix([r, v], unit);
    assert [r] + unit[0] == [r] && [v] + unit[0] == [v];
    assert rv == [[r], [v]];
    PrefixLength([a, b], rv);
    PrefixAt([a, b], rv, 0, 0);
    PrefixAt([a, b], rv, 0, 1);
    PrefixAt([a, b], rv, 1, 0);
    PrefixAt([a, b], rv, 1, 1);
    var p := Prefix([a, b], rv);
    assert [a] + [r] == [a, r] && [a] + [v] == [a, v] && [b] + [r] == [b, r] && [b] + [v] == [b, v];
    assert p == [[a, r], [a, v], [b, r], [b, v]];
    assert Combos(none) == unit;
    assert Combos([[r, v]]) == rv;
  }
}

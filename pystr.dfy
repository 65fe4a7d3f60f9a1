/**
 * The two Python string primitives the configuration accessors rely on:
 * `str(i)` of an `int`, and `s.replace("..", rep)`.
 */
module PyStr {
  import opened Maybe

  /** The character of a decimal digit. */
  function DigitChar(d: nat): (c: char)
    requires d < 10
    ensures '0' <= c <= '9'
    ensures c as int - '0' as int == d
  {
    ('0' as int + d) as char
  }

  predicate IsDigit(c: char) {
    '0' <= c <= '9'
  }

  predicate AllDigits(s: string) {
    forall i :: 0 <= i < |s| ==> IsDigit(s[i])
  }

  /** Decimal digits of `n`, most significant first, without leading zeros. */
  function Decimal(n: nat): (s: string)
    ensures |s| > 0 && AllDigits(s)
    ensures s[0] == '0' ==> n == 0
    decreases n
  {
    if n < 10 then [DigitChar(n)] else Decimal(n / 10) + [DigitChar(n % 10)]
  }

  /** `str(i)` for a Python `int`: an optional minus sign, then the decimal digits. */
  function IntToString(i: int): (s: string)
    ensures |s| > 0
    ensures s[0] == '-' <==> i < 0
  {
    if i < 0 then "-" + Decimal(-i) else Decimal(i)
  }

  /** The value of a string of decimal digits (the reference reading of `Decimal`). */
  function DecimalValue(s: string): nat
    requires AllDigits(s)
  {
    if s == [] then 0
    else DecimalValue(s[..|s| - 1]) * 10 + (s[|s| - 1] as int - '0' as int)
  }

  /** `int(s)` restricted to the strings `str` produces; `None` for anything else. */
  function ParseInt(s: string): Option<int> {
    if |s| > 0 && s[0] == '-' then
      if |s| > 1 && AllDigits(s[1..]) then Some(-(DecimalValue(s[1..]) as int)) else None
    else if |s| > 0 && AllDigits(s) then Some(DecimalValue(s) as int)
    else None
  }

  lemma {:induction false} DecimalRoundTrip(n: nat)
    ensures DecimalValue(Decimal(n)) == n
    decreases n
  {
    if n >= 10 {
      var init := Decimal(n / 10);
      var s := init + [DigitChar(n % 10)];
      assert s[..|s| - 1] == init;
      DecimalRoundTrip(n / 10);
    }
  }

  /** `int(str(i)) == i`: the string written by `str` reads back as the same integer. */
  lemma IntToStringRoundTrip(i: int)
    ensures ParseInt(IntToString(i)) == Some(i)
  {
    if i < 0 {
      var s := IntToString(i);
      assert s[1..] == Decimal(-i);
      DecimalRoundTrip(-i);
    } else {
      DecimalRoundTrip(i);
    }
  }

  /** `str` is injective on integers. */
  lemma IntToStringInjective(i: int, j: int)
    ensures IntToString(i) == IntToString(j) <==> i == j
  {
    IntToStringRoundTrip(i);
    IntToStringRoundTrip(j);
  }

  /** Whether `s` contains the substring "..". */
  predicate HasDotDot(s: string) {
    exists i :: 0 <= i < |s| - 1 && s[i] == '.' && s[i + 1] == '.'
  }

  /**
   * `s.replace("..", rep)`: every occurrence of ".." found scanning from the
   * left, without overlap, is replaced by `rep`.
   */
  function ReplaceDotDot(s: string, rep: string): string {
    if |s| >= 2 && s[0] == '.' && s[1] == '.' then rep + ReplaceDotDot(s[2..], rep)
    else if s == [] then []
    else [s[0]] + ReplaceDotDot(s[1..], rep)
  }

  /** Text with no ".." is left exactly as it was. */
  lemma {:induction false} ReplaceWithoutDotDot(s: string, rep: string)
    requires !HasDotDot(s)
    ensures ReplaceDotDot(s, rep) == s
  {
    if s != [] {
      assert !(|s| >= 2 && s[0] == '.' && s[1] == '.');
      assert !HasDotDot(s[1..]) by {
        forall i | 0 <= i < |s| - 2
          ensures !(s[1..][i] == '.' && s[1..][i + 1] == '.')
        {
          assert s[1..][i] == s[i + 1] && s[1..][i + 1] == s[i + 2];
        }
      }
      ReplaceWithoutDotDot(s[1..], rep);
    }
  }

  /** Replacing ".." by itself changes nothing. */
  lemma {:induction false} ReplaceByItself(s: string)
    ensures ReplaceDotDot(s, "..") == s
  {
    if |s| >= 2 && s[0] == '.' && s[1] == '.' {
      ReplaceByItself(s[2..]);
      assert s == ".." + s[2..];
    } else if s != [] {
      ReplaceByItself(s[1..]);
      assert s == [s[0]] + s[1..];
    }
  }

  /** Scanning is left to right without overlap: "..." becomes `rep + "."`. */
  lemma ReplaceThreeDots(rep: string)
    ensures ReplaceDotDot("...", rep) == rep + "."
  {
    assert "..."[2..] == ".";
    assert ReplaceDotDot(".", rep) == ".";
  }

  lemma NoDotDotConcat(a: string, b: string)
    requires !HasDotDot(a) && !HasDotDot(b)
    requires a == [] || b == [] || a[|a| - 1] != '.' || b[0] != '.'
    ensures !HasDotDot(a + b)
  {
    forall i | 0 <= i < |a + b| - 1
      ensures !((a + b)[i] == '.' && (a + b)[i + 1] == '.')
    {
      if i + 1 < |a| {
        assert (a + b)[i] == a[i] && (a + b)[i + 1] == a[i + 1];
      } else if i >= |a| {
        assert (a + b)[i] == b[i - |a|] && (a + b)[i + 1] == b[i - |a| + 1];
      } else {
        assert (a + b)[i] == a[|a| - 1] && (a + b)[i + 1] == b[0];
      }
    }
  }

  lemma ReplaceFirstChar(t: string, rep: string)
    requires |t| > 0 && t[0] != '.'
    ensures |ReplaceDotDot(t, rep)| > 0 && ReplaceDotDot(t, rep)[0] == t[0]
  {
  }

  /**
   * When the new base contains no '.', the rewritten text contains no ".."
   * at all: every occurrence was replaced and none can be formed anew.
   */
  lemma {:induction false} ReplaceRemovesAll(s: string, rep: string)
    requires forall k :: 0 <= k < |rep| ==> rep[k] != '.'
    ensures !HasDotDot(ReplaceDotDot(s, rep))
  {
    if |s| >= 2 && s[0] == '.' && s[1] == '.' {
      ReplaceRemovesAll(s[2..], rep);
      assert !HasDotDot(rep);
      NoDotDotConcat(rep, ReplaceDotDot(s[2..], rep));
    } else if s != [] {
      ReplaceRemovesAll(s[1..], rep);
      var rest := ReplaceDotDot(s[1..], rep);
      if s[0] == '.' && |s| >= 2 {
        assert s[1] != '.';
        ReplaceFirstChar(s[1..], rep);
      }
      assert !HasDotDot([s[0]]);
      NoDotDotConcat([s[0]], rest);
    }
  }
}

/** Identifier formatting (`f"charger_{n}"`, `f"CHARGER_{n:04d}"`, `f"region_{i}"`)
    and Python's ordering of strings. */
module Names {

  function DigitChar(d: nat): (c: char)
    requires d < 10
    ensures '0' <= c <= '9'
  {
    (48 + d) as char
  }

  /** Decimal rendering of a natural number, as `str(n)`. */
  function NatToString(n: nat): (s: string)
    ensures 1 <= |s|
    ensures forall i :: 0 <= i < |s| ==> '0' <= s[i] <= '9'
    ensures |s| == 1 <==> n < 10
    decreases n
  {
    if n < 10 then [DigitChar(n)] else NatToString(n / 10) + [DigitChar(n % 10)]
  }

  /** Different numbers render differently. */
  lemma {:induction false} NatToStringInjective(a: nat, b: nat)
    requires NatToString(a) == NatToString(b)
    ensures a == b
    decreases a
  {
    var s := NatToString(a);
    if a < 10 {
      assert b < 10;
    } else {
      assert 10 <= b;
      assert DigitChar(a % 10) == s[|s| - 1] == DigitChar(b % 10);
      assert NatToString(a / 10) == s[..|s| - 1] == NatToString(b / 10);
      NatToStringInjective(a / 10, b / 10);
    }
  }

  /** Zero padding on the left to at least `width` characters (`:0{width}d`). */
  function PadLeft(s: string, width: nat): (r: string)
    ensures |r| == if |s| >= width then |s| else width
    ensures r[|r| - |s|..] == s
    ensures forall i :: 0 <= i < |r| - |s| ==> r[i] == '0'
  {
    if |s| >= width then s
    else
      var zeros := seq(width - |s|, _ => '0');
      var r := zeros + s;
      assert r[|r| - |s|..] == s;
      r
  }

  /** Charger ids made by the environment's population builder (environment.py:252). */
  function ChargerName(n: nat): (r: string)
    ensures |r| > 0 && r[0] == 'c'
  {
    "charger_" + NatToString(n)
  }

  /** Agent keys made by the MARL system (marl.py:242). */
  function AgentName(i: nat): (r: string)
    ensures |r| > 0 && r[0] == 'C'
  {
    "CHARGER_" + PadLeft(NatToString(i + 1), 4)
  }

  /** `k` is one of the first `n` agent keys. */
  predicate IsAgentKey(k: string, n: int) {
    exists i: nat :: i < n && k == AgentName(i)
  }

  /** User ids made by the environment's population builder (environment.py:156). */
  function UserName(n: nat): (r: string)
    ensures |r| > 0 && r[0] == 'u'
  {
    "user_" + NatToString(n)
  }

  /** Fallback region ids (grid_model.py:79). */
  function RegionName(i: nat): string {
    "region_" + NatToString(i)
  }

  lemma {:induction false} RegionNamesDistinct(i: nat, j: nat)
    requires i != j
    ensures RegionName(i) != RegionName(j)
  {
    if RegionName(i) == RegionName(j) {
      var p := "region_";
      assert RegionName(i)[|p|..] == NatToString(i);
      assert RegionName(j)[|p|..] == NatToString(j);
      NatToStringInjective(i, j);
    }
  }

  /** Python's `<` on `str`: lexicographic by code point, a proper prefix first. */
  predicate LexLess(a: string, b: string)
    decreases |a|
  {
    if |a| == 0 then |b| > 0
    else if |b| == 0 then false
    else if a[0] != b[0] then a[0] < b[0]
    else LexLess(a[1..], b[1..])
  }

  lemma {:induction false} LexLessIrreflexive(a: string)
    ensures !LexLess(a, a)
    decreases |a|
  {
    if |a| > 0 {
      LexLessIrreflexive(a[1..]);
    }
  }

  lemma {:induction false} LexLessTotal(a: string, b: string)
    requires a != b
    ensures LexLess(a, b) || LexLess(b, a)
    decreases |a|
  {
    if |a| > 0 && |b| > 0 && a[0] == b[0] {
      LexLessTotal(a[1..], b[1..]);
    }
  }

  lemma {:induction false} LexLessTransitive(a: string, b: string, c: string)
    requires LexLess(a, b) && LexLess(b, c)
    ensures LexLess(a, c)
    decreases |a|
  {
    if |a| > 0 && |b| > 0 && |c| > 0 && a[0] == b[0] && b[0] == c[0] {
      LexLessTransitive(a[1..], b[1..], c[1..]);
    }
  }

  lemma {:induction false} LexLessAsymmetric(a: string, b: string)
    requires LexLess(a, b)
    ensures !LexLess(b, a)
    decreases |a|
  {
    if |a| > 0 && |b| > 0 && a[0] == b[0] {
      LexLessAsymmetric(a[1..], b[1..]);
    }
  }

  /** Strictly increasing under `LexLess`, hence free of repeats. */
  predicate Ascending(s: seq<string>) {
    forall i, j :: 0 <= i < j < |s| ==> LexLess(s[i], s[j])
  }

  /** A slice of an ascending list is ascending. */
  lemma AscendingSlice(s: seq<string>, i: nat, j: nat)
    requires Ascending(s) && i <= j <= |s|
    ensures Ascending(s[i..j])
  {
    forall a, b | 0 <= a < b < j - i ensures LexLess(s[i..j][a], s[i..j][b]) {
      assert s[i..j][a] == s[i + a] && s[i..j][b] == s[i + b];
    }
  }

  /** Puts `x` into an ascending list, unless it is already there. */
  function InsertName(x: string, s: seq<string>): (r: seq<string>)
    requires Ascending(s)
    ensures Ascending(r)
    ensures forall y :: y in r <==> y == x || y in s
    decreases |s|
  {
    if |s| == 0 then [x]
    else if x == s[0] then s
    else if LexLess(x, s[0]) then
      assert forall j :: 0 < j < |s| ==> LexLess(x, s[j]) by {
        forall j | 0 < j < |s| ensures LexLess(x, s[j]) {
          LexLessTransitive(x, s[0], s[j]);
        }
      }
      [x] + s
    else
      LexLessTotal(x, s[0]);
      var rest := InsertName(x, s[1..]);
      assert forall y :: y in s <==> y == s[0] || y in s[1..];
      assert forall j :: 0 <= j < |rest| ==> LexLess(s[0], rest[j]) by {
        forall j | 0 <= j < |rest| ensures LexLess(s[0], rest[j]) {
          assert rest[j] in rest;
          if rest[j] != x {
            var k :| 1 <= k < |s| && s[k] == rest[j];
          }
        }
      }
      [s[0]] + rest
  }

  /** `sorted(set(xs))`: the distinct names of `xs` in ascending order. */
  function SortedNames(xs: seq<string>): (r: seq<string>)
    ensures Ascending(r)
    ensures forall y :: y in r <==> y in xs
  {
    if |xs| == 0 then []
    else
      assert forall y :: y in xs <==> y == xs[0] || y in xs[1..];
      InsertName(xs[0], SortedNames(xs[1..]))
  }
}

/**
 * The two distance deciders of the Rust searcher (src/lib.rs): the mbleven
 * matcher, which tries every edit script of a table row packed two bits per
 * operation, and the rolling-row Wagner-Fischer programme used for distances
 * above three. Both decide `Lev(first, second) <= max_distance` exactly.
 */
module RustMbleven {
  import opened Levenshtein
  import opened EditScripts

  /** Initial row of the Wagner-Fischer programme: distances from the empty string. */
  const WAGNER_FISCHER_ARR_INIT: seq<nat> := seq(100, q => q)

  /**
   * Edit scripts indexed by the distance bound and the difference of the
   * lengths. Each code packs its operations low bits first: bit 0 set
   * advances the first (longer) string, bit 1 set advances the second.
   */
  const MBLEVEN_MATRIX: seq<seq<seq<nat>>> := [
    [[0], [0], [0], [0]],
    [[3], [1], [0], [0]],
    [[15, 9, 6], [13, 7], [5], [0]],
    [[63, 39, 45, 57, 54, 30, 27], [61, 55, 31, 37, 25, 22], [53, 29, 23], [21]]
  ]

  /** The scripts for a bound and a length difference within it. */
  function MatrixRow(max_distance: nat, difference: nat): seq<nat>
    requires difference <= max_distance <= 3
  {
    MBLEVEN_MATRIX[max_distance][difference]
  }

  /** The two bits of an operation: which strings it advances. */
  function OpBits(op: Op): (bits: nat)
    ensures 1 <= bits <= 3
    ensures (bits % 2 == 1) == (op != Insert) && ((bits / 2) % 2 == 1) == (op != Delete)
  {
    match op case Replace => 3 case Delete => 1 case Insert => 2
  }

  /** A script packed as a table code, first operation in the lowest bits. */
  function Encode(s: seq<Op>): nat
  {
    if s == [] then 0 else OpBits(s[0]) + 4 * Encode(s[1..])
  }

  function OpOf(bits: nat): Op
  {
    if bits == 1 then Delete else if bits == 2 then Insert else Replace
  }

  /** The script a code packs, read two bits at a time until nothing is left. */
  function Decode(m: nat): seq<Op>
  {
    if m == 0 then [] else [OpOf(m % 4)] + Decode(m / 4)
  }

  /** `m` packs a script of `d` operations for the length difference `k`. */
  predicate CodeFor(d: nat, k: int, m: nat)
  {
    if d == 0 then m == 0 && k == 0
    else m % 4 != 0 && CodeFor(d - 1, k - Shift(OpOf(m % 4)), m / 4)
  }

  lemma {:induction false} CodeForDecodes(d: nat, k: int, m: nat)
    requires CodeFor(d, k, m)
    ensures IsScript(d, k, Decode(m)) && Encode(Decode(m)) == m
  {
    if d > 0 {
      CodeForDecodes(d - 1, k - Shift(OpOf(m % 4)), m / 4);
      var s := Decode(m);
      assert s[0] == OpOf(m % 4) && s[1..] == Decode(m / 4);
    }
  }

  /** Every code of row `(d, k)` packs a script for `(d, k)`. */
  lemma MatrixRowsAreCodes(d: nat, k: nat, m: nat)
    requires k <= d <= 3 && m in MBLEVEN_MATRIX[d][k]
    ensures CodeFor(d, k, m)
  {
    if d == 3 {
      ThreeEditCodes(k, m);
    } else if d == 2 {
      assert MBLEVEN_MATRIX[2] == [[15, 9, 6], [13, 7], [5], [0]];
    } else if d == 1 {
      assert MBLEVEN_MATRIX[1] == [[3], [1], [0], [0]];
    }
  }

  /** The codes for three edits, one length difference at a time. */
  lemma ThreeEditCodes(k: nat, m: nat)
    requires k <= 3 && m in MBLEVEN_MATRIX[3][k]
    ensures CodeFor(3, k, m)
  {
    if k == 0 {
      assert MBLEVEN_MATRIX[3][0] == [63, 39, 45, 57, 54, 30, 27];
      ThreeEditsEqualLengths(m);
    } else if k == 1 {
      assert MBLEVEN_MATRIX[3][1] == [61, 55, 31, 37, 25, 22];
      ThreeEditsOneApart(m);
    } else if k == 2 {
      assert MBLEVEN_MATRIX[3][2] == [53, 29, 23];
    } else {
      assert MBLEVEN_MATRIX[3][3] == [21];
    }
  }

  lemma ThreeEditsEqualLengths(m: nat)
    requires m in [63, 39, 45, 57, 54, 30, 27]
    ensures CodeFor(3, 0, m)
  {
  }

  lemma ThreeEditsOneApart(m: nat)
    requires m in [61, 55, 31, 37, 25, 22]
    ensures CodeFor(3, 1, m)
  {
  }

  /** Row `(d, k)` holds the code of every script for `(d, k)`. */
  lemma MatrixHasEveryScript(d: nat, k: nat, s: seq<Op>)
    requires k <= d <= 3 && IsScript(d, k, s)
    ensures Encode(s) in MBLEVEN_MATRIX[d][k]
  {
    ScriptShape(d, k, s);
    if d == 1 {
      assert s[1..] == [];
      assert MBLEVEN_MATRIX[1] == [[3], [1], [0], [0]];
    } else if d == 2 {
      assert s[1..][1..] == [];
      assert Encode(s[1..]) == OpBits(s[1]);
      assert Encode(s) == OpBits(s[0]) + 4 * OpBits(s[1]);
      assert Balance(s[1..]) == Shift(s[1]);
      assert Balance(s) == Shift(s[0]) + Shift(s[1]);
      assert MBLEVEN_MATRIX[2] == [[15, 9, 6], [13, 7], [5], [0]];
    } else if d == 3 {
      assert s[1..][1..][1..] == [];
      assert Encode(s[1..][1..]) == OpBits(s[2]);
      assert Encode(s[1..]) == OpBits(s[1]) + 4 * OpBits(s[2]);
      assert Encode(s) == OpBits(s[0]) + 4 * OpBits(s[1]) + 16 * OpBits(s[2]);
      assert Balance(s[1..][1..]) == Shift(s[2]);
      assert Balance(s[1..]) == Shift(s[1]) + Shift(s[2]);
      assert MBLEVEN_MATRIX[3] == [[63, 39, 45, 57, 54, 30, 27], [61, 55, 31, 37, 25, 22], [53, 29, 23], [21]];
    }
  }

  /**
   * The differences the matcher counts for code `m`: at a mismatch the low
   * two bits say which strings advance and are then shifted out; a code
   * used up at a mismatch counts two more; a leftover tail counts its length.
   */
  function CodeCost(a: string, b: string, m: nat): nat
    decreases |a| + |b| + m
  {
    if |a| == 0 then |b|
    else if |b| == 0 then |a|
    else if a[0] == b[0] then CodeCost(a[1..], b[1..], m)
    else if m == 0 then 2
    else 1 + CodeCost(if m % 2 == 1 then a[1..] else a, if (m / 2) % 2 == 1 then b[1..] else b, m / 4)
  }

  /** Walking a packed code counts what walking its script counts. */
  lemma {:induction false} CodeCostEncode(a: string, b: string, s: seq<Op>)
    ensures CodeCost(a, b, Encode(s)) == Cost(a, b, s)
    decreases |a| + |b|
  {
    if |a| > 0 && |b| > 0 {
      if a[0] == b[0] {
        CodeCostEncode(a[1..], b[1..], s);
      } else if s != [] {
        var x, y := OpBits(s[0]), Encode(s[1..]);
        assert Encode(s) % 2 == x % 2 && (Encode(s) / 2) % 2 == (x / 2) % 2 && Encode(s) / 4 == y by {
          assert Encode(s) == x + 4 * y;
        }
        match s[0]
        case Replace => CodeCostEncode(a[1..], b[1..], s[1..]);
        case Delete => CodeCostEncode(a[1..], b, s[1..]);
        case Insert => CodeCostEncode(a, b[1..], s[1..]);
      }
    }
  }

  /**
   * The row for `d` and the length difference decides the bound: some code
   * of it walks within `d` exactly when the distance is at most `d`.
   */
  lemma MatrixRowDecides(a: string, b: string, d: nat)
    requires 0 <= |a| - |b| <= d <= 3
    ensures (exists m :: m in MBLEVEN_MATRIX[d][|a| - |b|] && CodeCost(a, b, m) <= d) <==> Lev(a, b) <= d
  {
    if Lev(a, b) <= d {
      var m := MatrixRowFinds(a, b, d);
    } else {
      forall m | m in MBLEVEN_MATRIX[d][|a| - |b|]
        ensures CodeCost(a, b, m) > d
      {
        MatrixCodeSound(a, b, d, m);
      }
    }
  }

  /** Within the bound, the code of a cheapest script is in the row. */
  lemma MatrixRowFinds(a: string, b: string, d: nat) returns (m: nat)
    requires 0 <= |a| - |b| <= d <= 3 && Lev(a, b) <= d
    ensures m in MBLEVEN_MATRIX[d][|a| - |b|] && CodeCost(a, b, m) <= d
  {
    var s := CostComplete(a, b, d);
    MatrixHasEveryScript(d, |a| - |b|, s);
    CodeCostEncode(a, b, s);
    m := Encode(s);
  }

  /** A code of the row that walks within the bound shows the distance is within it. */
  lemma MatrixCodeSound(a: string, b: string, d: nat, m: nat)
    requires 0 <= |a| - |b| <= d <= 3 && m in MBLEVEN_MATRIX[d][|a| - |b|]
    ensures CodeCost(a, b, m) <= d ==> Lev(a, b) <= d
  {
    var k := |a| - |b|;
    MatrixRowsAreCodes(d, k, m);
    CodeForDecodes(d, k, m);
    var s := Decode(m);
    CodeCostEncode(a, b, s);
    ScriptShape(d, k, s);
    CostSound(a, b, s);
  }

  /**
   * Tries each code of `codes` in turn: walks the two strings, spending the
   * code's next two bits at every mismatch, and succeeds as soon as one walk
   * counts at most `max_distance` differences.
   */
  method FastMbleven(first: string, second: string, codes: seq<nat>, max_distance: nat) returns (r: bool)
    ensures r <==> exists m :: m in codes && CodeCost(first, second, m) <= max_distance
    ensures 0 <= |first| - |second| <= max_distance <= 3 && codes == MBLEVEN_MATRIX[max_distance][|first| - |second|]
      ==> (r <==> Lev(first, second) <= max_distance)
  {
    var t := 0;
    while t < |codes|
      invariant 0 <= t <= |codes|
      invariant forall u :: 0 <= u < t ==> CodeCost(first, second, codes[u]) > max_distance
    {
      var m := codes[t];
      var differences := 0;
      var i, j := 0, 0;
      while true
        invariant i <= |first| && j <= |second|
        invariant differences + CodeCost(first[i..], second[j..], m) == CodeCost(first, second, codes[t])
        decreases |first| - i + |second| - j + m
      {
        if i < |first| && j < |second| {
          if first[i] != second[j] {
            if m == 0 {
              differences := differences + 2;
              break;
            }
            differences := differences + 1;
            if m % 2 == 1 {
              i := i + 1;
            }
            if (m / 2) % 2 == 1 {
              j := j + 1;
            }
            m := m / 4;
          } else {
            i := i + 1;
            j := j + 1;
          }
        } else if i < |first| {
          differences := differences + (|first| - i);
          break;
        } else if j < |second| {
          differences := differences + (|second| - j);
          break;
        } else {
          break;
        }
      }
      if differences <= max_distance {
        r := true;
        if 0 <= |first| - |second| <= max_distance <= 3 && codes == MBLEVEN_MATRIX[max_distance][|first| - |second|] {
          MatrixRowDecides(first, second, max_distance);
        }
        return;
      }
      t := t + 1;
    }
    r := false;
    if 0 <= |first| - |second| <= max_distance <= 3 && codes == MBLEVEN_MATRIX[max_distance][|first| - |second|] {
      MatrixRowDecides(first, second, max_distance);
    }
  }

  /**
   * The standalone matcher: equality for distance zero, then the longer
   * string first, a length gap above the bound rejected at once, and the
   * table row for the bound and the gap tried.
   */
  method Mbleven(first_string: string, second_string: string, max_distance: nat) returns (r: bool)
    requires max_distance <= 3 || |first_string| - |second_string| > max_distance
      || |second_string| - |first_string| > max_distance
    ensures r <==> Lev(first_string, second_string) <= max_distance
  {
    if max_distance == 0 {
      LevZero(first_string, second_string);
      return first_string == second_string;
    }
    var first, second := first_string, second_string;
    if |first| < |second| {
      first, second := second, first;
      LevSymmetric(first_string, second_string);
    }
    var difference := |first| - |second|;
    if max_distance < difference {
      LevLengthGap(first, second);
      return false;
    }
    r := FastMbleven(first, second, MBLEVEN_MATRIX[max_distance][difference], max_distance);
  }

  /**
   * The rolling-row Wagner-Fischer programme: after row `i`, cell `j` holds
   * the distance between the first `i` characters of `first_string` and the
   * first `j` of `second_string`. The row has 100 cells, so the second
   * string must be shorter than that.
   */
  method WagnerFischer(first_string: string, second_string: string, max_distance: nat) returns (r: bool)
    requires max_distance == 0 || |second_string| < |WAGNER_FISCHER_ARR_INIT|
    ensures r <==> Lev(first_string, second_string) <= max_distance
  {
    if max_distance == 0 {
      LevZero(first_string, second_string);
      return first_string == second_string;
    }
    var arr := new nat[|WAGNER_FISCHER_ARR_INIT|](q requires 0 <= q < |WAGNER_FISCHER_ARR_INIT| => WAGNER_FISCHER_ARR_INIT[q]);
    var i := 0;
    while i < |first_string|
      invariant 0 <= i <= |first_string|
      invariant forall q {:trigger arr[q]} :: 0 <= q <= |second_string| ==> arr[q] == PrefixDistance(first_string, second_string, i, q)
    {
      FillRow(arr, first_string, second_string, i);
      i := i + 1;
    }
    PrefixDistanceIsLev(first_string, second_string, |first_string|, |second_string|);
    assert first_string[..|first_string|] == first_string && second_string[..|second_string|] == second_string;
    r := arr[|second_string|] <= max_distance;
  }

  /**
   * One pass of the outer loop of the Wagner-Fischer programme: row `i + 1`
   * computed in place from row `i`, the diagonal cell kept aside before it
   * is overwritten.
   */
  method FillRow(arr: array<nat>, first_string: string, second_string: string, i: nat)
    requires i < |first_string| && |second_string| < arr.Length
    requires forall q {:trigger arr[q]} :: 0 <= q <= |second_string| ==> arr[q] == PrefixDistance(first_string, second_string, i, q)
    modifies arr
    ensures forall q {:trigger arr[q]} :: 0 <= q <= |second_string| ==> arr[q] == PrefixDistance(first_string, second_string, i + 1, q)
  {
    var dia := i;
    arr[0] := i + 1;
    var j := 0;
    while j < |second_string|
      invariant 0 <= j <= |second_string|
      invariant RowsMeet(arr[..], first_string, second_string, i + 1, j + 1)
      invariant dia == PrefixDistance(first_string, second_string, i, j)
    {
      var tmp := arr[j + 1];
      WriteCell(arr, first_string, second_string, i + 1, j + 1, dia);
      dia := tmp;
      j := j + 1;
    }
  }
}

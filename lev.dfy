/**
 * The Levenshtein (edit) distance that both matchers of the searcher decide
 * against: insertions, deletions and substitutions of one character, each at
 * unit cost. It is defined by the usual recursion on the first characters of
 * the two strings; the lemmas give the recursion on the last characters (the
 * form a rolling-row dynamic programme uses), symmetry, the length bound
 * that justifies pruning by length, and the zero-distance case.
 */
module Levenshtein {

  function Min3(x: nat, y: nat, z: nat): (m: nat)
    ensures m <= x && m <= y && m <= z
    ensures m == x || m == y || m == z
  {
    if x <= y && x <= z then x else if y <= z then y else z
  }

  /** The least of nine numbers, taken row by row or column by column. */
  lemma Min3Transpose(a1: nat, b1: nat, c1: nat, a2: nat, b2: nat, c2: nat, a3: nat, b3: nat, c3: nat)
    ensures Min3(Min3(a1, b1, c1), Min3(a2, b2, c2), Min3(a3, b3, c3))
         == Min3(Min3(a1, a2, a3), Min3(b1, b2, b3), Min3(c1, c2, c3))
  {
  }

  /** Edit distance between `a` and `b`. */
  function Lev(a: string, b: string): nat
    decreases |a| + |b|
  {
    if |a| == 0 then |b|
    else if |b| == 0 then |a|
    else if a[0] == b[0] then Lev(a[1..], b[1..])
    else 1 + Min3(Lev(a[1..], b), Lev(a, b[1..]), Lev(a[1..], b[1..]))
  }

  lemma {:induction false} LevSymmetric(a: string, b: string)
    ensures Lev(a, b) == Lev(b, a)
    decreases |a| + |b|
  {
    if |a| > 0 && |b| > 0 {
      LevSymmetric(a[1..], b[1..]);
      if a[0] != b[0] {
        LevSymmetric(a[1..], b);
        LevSymmetric(a, b[1..]);
      }
    }
  }

  /** The distance is at least the difference of the lengths. */
  lemma {:induction false} LevLengthGap(a: string, b: string)
    ensures |a| <= Lev(a, b) + |b| && |b| <= Lev(a, b) + |a|
    decreases |a| + |b|
  {
    if |a| > 0 && |b| > 0 {
      LevLengthGap(a[1..], b[1..]);
      if a[0] != b[0] {
        LevLengthGap(a[1..], b);
        LevLengthGap(a, b[1..]);
      }
    }
  }

  /** Distance zero means equal strings, and only that. */
  lemma {:induction false} LevZero(a: string, b: string)
    ensures Lev(a, b) == 0 <==> a == b
    decreases |a| + |b|
  {
    if |a| > 0 && |b| > 0 {
      LevZero(a[1..], b[1..]);
      if a[0] == b[0] {
        assert a == [a[0]] + a[1..] && b == [b[0]] + b[1..];
      }
    }
  }

  /** Closed form for a one-character first argument. */
  lemma {:induction false} LevSingle(x: char, w: string)
    ensures Lev([x], w) == if |w| == 0 then 1 else if x in w then |w| - 1 else |w|
    decreases |w|
  {
    if |w| > 0 {
      assert [x][1..] == [];
      if x != w[0] {
        LevSingle(x, w[1..]);
        assert x in w <==> x in w[1..] by {
          assert w == [w[0]] + w[1..];
        }
      }
    }
  }

  /** Closed form for a one-character second argument. */
  lemma LevSingleRight(w: string, y: char)
    ensures Lev(w, [y]) == if |w| == 0 then 1 else if y in w then |w| - 1 else |w|
  {
    LevSymmetric(w, [y]);
    LevSingle(y, w);
  }

  /** Appending the same character to both strings leaves the distance unchanged. */
  lemma {:induction false} LevSnocSame(a: string, b: string, c: char)
    ensures Lev(a + [c], b + [c]) == Lev(a, b)
    decreases |a| + |b|
  {
    if |a| == 0 {
      assert a + [c] == [c];
      LevSingle(c, b + [c]);
      assert c in b + [c] by { assert (b + [c])[|b|] == c; }
    } else if |b| == 0 {
      assert b + [c] == [c];
      LevSingleRight(a + [c], c);
      assert c in a + [c] by { assert (a + [c])[|a|] == c; }
    } else {
      assert (a + [c])[0] == a[0] && (a + [c])[1..] == a[1..] + [c];
      assert (b + [c])[0] == b[0] && (b + [c])[1..] == b[1..] + [c];
      LevSnocSame(a[1..], b[1..], c);
      if a[0] != b[0] {
        LevSnocSame(a[1..], b, c);
        LevSnocSame(a, b[1..], c);
      }
    }
  }

  /** `LevSnocDiff` when the first string is empty. */
  lemma LevSnocDiffEmpty(b: string, x: char, y: char)
    requires x != y
    ensures Lev([x], b + [y]) == 1 + Min3(Lev([], b + [y]), Lev([x], b), Lev([], b))
  {
    LevSingle(x, b + [y]);
    LevSingle(x, b);
    assert x in b + [y] <==> x in b by {
      assert forall i :: 0 <= i < |b| ==> (b + [y])[i] == b[i];
      assert (b + [y])[|b|] == y;
    }
  }

  /** `LevSnocDiff` when the second string is empty. */
  lemma LevSnocDiffEmptyRight(a: string, x: char, y: char)
    requires x != y
    ensures Lev(a + [x], [y]) == 1 + Min3(Lev(a, [y]), Lev(a + [x], []), Lev(a, []))
  {
    LevSingleRight(a + [x], y);
    LevSingleRight(a, y);
    assert y in a + [x] <==> y in a by {
      assert forall i :: 0 <= i < |a| ==> (a + [x])[i] == a[i];
      assert (a + [x])[|a|] == x;
    }
  }

  /**
   * Appending two different characters: the recursion on the last
   * characters, which the rolling-row programme computes.
   */
  lemma {:induction false} LevSnocDiff(a: string, b: string, x: char, y: char)
    requires x != y
    ensures Lev(a + [x], b + [y]) == 1 + Min3(Lev(a, b + [y]), Lev(a + [x], b), Lev(a, b))
    decreases |a| + |b|
  {
    if |a| == 0 {
      assert a == [] && a + [x] == [x];
      LevSnocDiffEmpty(b, x, y);
        assert Lev(a + [x], b + [y]) == 1 + Min3(Lev(a, b + [y]), Lev(a + [x], b), Lev(a, b));
    } else if |b| == 0 {
      assert b == [] && b + [y] == [y];
      LevSnocDiffEmptyRight(a, x, y);
        assert Lev(a + [x], b + [y]) == 1 + Min3(Lev(a, b + [y]), Lev(a + [x], b), Lev(a, b));
    } else {
      var a', b' := a[1..], b[1..];
      assert (a + [x])[0] == a[0] && (a + [x])[1..] == a' + [x];
      assert (b + [y])[0] == b[0] && (b + [y])[1..] == b' + [y];
      if a[0] == b[0] {
        LevSnocDiff(a', b', x, y);
        assert Lev(a + [x], b + [y]) == Lev(a' + [x], b' + [y]);
        assert Lev(a, b + [y]) == Lev(a', b' + [y]) && Lev(a + [x], b) == Lev(a' + [x], b') && Lev(a, b) == Lev(a', b');
        assert Lev(a + [x], b + [y]) == 1 + Min3(Lev(a, b + [y]), Lev(a + [x], b), Lev(a, b));
      } else {
        LevSnocDiff(a', b, x, y);
        LevSnocDiff(a, b', x, y);
        LevSnocDiff(a', b', x, y);
        assert Lev(a + [x], b + [y]) == 1 + Min3(Lev(a' + [x], b + [y]), Lev(a + [x], b' + [y]), Lev(a' + [x], b' + [y]));
        assert Lev(a, b) == 1 + Min3(Lev(a', b), Lev(a, b'), Lev(a', b'));
        assert Lev(a, b + [y]) == 1 + Min3(Lev(a', b + [y]), Lev(a, b' + [y]), Lev(a', b' + [y]));
        assert Lev(a + [x], b) == 1 + Min3(Lev(a' + [x], b), Lev(a + [x], b'), Lev(a' + [x], b'));
        Min3Transpose(Lev(a', b + [y]), Lev(a' + [x], b), Lev(a', b),
                      Lev(a, b' + [y]), Lev(a + [x], b'), Lev(a, b'),
                      Lev(a', b' + [y]), Lev(a' + [x], b'), Lev(a', b'));
        assert Lev(a + [x], b + [y]) == 1 + Min3(Lev(a, b + [y]), Lev(a + [x], b), Lev(a, b));
      }
    }
  }

  /**
   * The table the rolling-row programme fills, cell `(i, j)` from its upper,
   * left and diagonal neighbours; it is the distance between the first `i`
   * characters of `a` and the first `j` of `b` (`PrefixDistanceIsLev`).
   */
  function PrefixDistance(a: string, b: string, i: nat, j: nat): nat
    requires i <= |a| && j <= |b|
  {
    if i == 0 then j
    else if j == 0 then i
    else if a[i - 1] != b[j - 1] then
      Min3(PrefixDistance(a, b, i - 1, j), PrefixDistance(a, b, i, j - 1), PrefixDistance(a, b, i - 1, j - 1)) + 1
    else PrefixDistance(a, b, i - 1, j - 1)
  }

  /** A prefix is the shorter prefix and one more character. */
  lemma TakeSnoc(s: string, i: nat)
    requires 0 < i <= |s|
    ensures s[..i] == s[..i - 1] + [s[i - 1]]
  {
  }

  lemma {:induction false} PrefixDistanceIsLev(a: string, b: string, i: nat, j: nat)
    requires i <= |a| && j <= |b|
    ensures PrefixDistance(a, b, i, j) == Lev(a[..i], b[..j])
    decreases i + j
  {
    if i > 0 && j > 0 {
      PrefixDistanceIsLev(a, b, i - 1, j);
      PrefixDistanceIsLev(a, b, i, j - 1);
      PrefixDistanceIsLev(a, b, i - 1, j - 1);
      var x, y := a[..i - 1], b[..j - 1];
      TakeSnoc(a, i);
      TakeSnoc(b, j);
      if a[i - 1] != b[j - 1] {
        LevSnocDiff(x, y, a[i - 1], b[j - 1]);
      } else {
        LevSnocSame(x, y, a[i - 1]);
      }
    }
  }

  /**
   * Midway through row `i`: cells before `j` hold row `i`, the others
   * still row `i - 1`.
   */
  ghost predicate RowsMeet(cells: seq<nat>, a: string, b: string, i: nat, j: nat)
    requires 1 <= i <= |a| && |b| < |cells|
  {
    (forall q {:trigger cells[q]} :: 0 <= q < j && q <= |b| ==> cells[q] == PrefixDistance(a, b, i, q))
    && (forall q {:trigger cells[q]} :: j <= q <= |b| ==> cells[q] == PrefixDistance(a, b, i - 1, q))
  }

  /**
   * Writing cell `j` of row `i` from its three neighbours moves the meeting
   * point on by one; `pi` and `pj` are the positions of the two characters
   * compared, one before the cell's row and column.
   */
  lemma CellStep(cells: seq<nat>, a: string, b: string, i: nat, j: nat, pi: nat, pj: nat, diag: nat)
    requires pi + 1 == i <= |a| && pj + 1 == j <= |b| && |b| < |cells|
    requires RowsMeet(cells, a, b, i, j) && diag == PrefixDistance(a, b, pi, pj)
    ensures RowsMeet(cells[j := if a[pi] != b[pj] then Min3(cells[j], cells[pj], diag) + 1 else diag], a, b, i, j + 1)
  {
  }

  /**
   * Writing cell `j` of row `i` in place, from the cell above it (still in
   * `arr[j]`), the cell to its left (already in `arr[j - 1]`) and the
   * diagonal cell kept aside in `diag`.
   */
  method WriteCell(arr: array<nat>, a: string, b: string, i: nat, j: nat, diag: nat)
    requires 1 <= i <= |a| && 1 <= j <= |b| && |b| < arr.Length
    requires RowsMeet(arr[..], a, b, i, j) && diag == PrefixDistance(a, b, i - 1, j - 1)
    modifies arr
    ensures RowsMeet(arr[..], a, b, i, j + 1)
  {
    CellStep(arr[..], a, b, i, j, i - 1, j - 1, diag);
    if a[i - 1] != b[j - 1] {
      arr[j] := Min3(arr[j], arr[j - 1], diag) + 1;
    } else {
      arr[j] := diag;
    }
  }
}

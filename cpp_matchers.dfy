/**
 * The two matchers of the C++ searcher (src/fastzy.cpp). The mbleven
 * matcher keeps its edit scripts as strings over `r` (replace), `d` (delete
 * from the longer string) and `i` (insert into it) in a flat table of nine
 * rows of seven entries, a missing entry ending a row; the rows of bound
 * `d` start at `MATRIX_ROW_INDEX[d - 1]`, one row per length difference.
 * The Wagner-Fischer matcher fills a rolling row of 100 cells with 1-based
 * loops.
 */
module CppMatchers {
  import opened Levenshtein
  import opened EditScripts
  import opened Text

  /** The scripts, row by row; `None` stands for a null entry. */
  const MBLEVEN_TABLE: seq<Option<string>> :=
    [Some("r"), None, None, None, None, None, None] +
    [Some("d"), None, None, None, None, None, None] +
    [Some("rr"), Some("id"), Some("di"), None, None, None, None] +
    [Some("rd"), Some("dr"), None, None, None, None, None] +
    [Some("dd"), None, None, None, None, None, None] +
    [Some("rrr"), Some("idr"), Some("ird"), Some("rid"), Some("rdi"), Some("dri"), Some("dir")] +
    [Some("rrd"), Some("rdr"), Some("drr"), Some("idd"), Some("did"), Some("ddi"), None] +
    [Some("rdd"), Some("drd"), Some("ddr"), None, None, None, None] +
    [Some("ddd"), None, None, None, None, None, None]

  /** Initial row of the Wagner-Fischer programme: distances from the empty string. */
  const ARR_INIT: seq<nat> := seq(100, q => q)

  /** The first row of each bound's block, for bounds one to three. */
  const MATRIX_ROW_INDEX: seq<nat> := [0, 2, 5]

  /** The three letters a script is spelled with. */
  predicate IsLetter(ch: char)
  {
    ch == 'r' || ch == 'd' || ch == 'i'
  }

  /** Every character of `w` is one of the three script letters. */
  predicate Letters(w: string)
  {
    forall n :: 0 <= n < |w| ==> IsLetter(w[n])
  }

  function OpOfLetter(ch: char): Op
  {
    if ch == 'd' then Delete else if ch == 'i' then Insert else Replace
  }

  function Letter(op: Op): char
  {
    match op case Replace => 'r' case Delete => 'd' case Insert => 'i'
  }

  /** The operations a spelled script stands for. */
  function Unspell(w: string): (s: seq<Op>)
    ensures |s| == |w|
  {
    if w == [] then [] else [OpOfLetter(w[0])] + Unspell(w[1..])
  }

  /** A script spelled out, one letter per operation. */
  function Spell(s: seq<Op>): string
  {
    if s == [] then [] else [Letter(s[0])] + Spell(s[1..])
  }

  lemma {:induction false} UnspellSpell(s: seq<Op>)
    ensures Unspell(Spell(s)) == s
  {
    if s != [] {
      UnspellSpell(s[1..]);
      assert Spell(s)[1..] == Spell(s[1..]);
    }
  }

  /** Deletions minus insertions in `w` from position `n` on. */
  function LetterBalance(w: string, n: nat): int
    decreases |w| - n
  {
    if n >= |w| then 0 else Shift(OpOfLetter(w[n])) + LetterBalance(w, n + 1)
  }

  /** `w` spells a script of `d` operations for the length difference `k`. */
  predicate SpelledFor(d: nat, k: int, w: string)
  {
    |w| == d && Letters(w) && LetterBalance(w, 0) == k
  }

  lemma {:induction false} LetterBalanceUnspells(w: string, n: nat)
    requires n <= |w|
    ensures LetterBalance(w, n) == Balance(Unspell(w[n..]))
    decreases |w| - n
  {
    if n < |w| {
      LetterBalanceUnspells(w, n + 1);
      assert w[n..][1..] == w[n + 1..];
    }
  }

  /** A spelled script of `d` letters balancing to `k` is a script for `(d, k)`. */
  lemma SpelledForIsScript(d: nat, k: int, w: string)
    requires SpelledFor(d, k, w)
    ensures IsScript(d, k, Unspell(w))
  {
    LetterBalanceUnspells(w, 0);
    assert w[0..] == w;
    BalancedIsScript(Unspell(w));
  }

  /** Every sequence of operations is a script for its length and balance. */
  lemma {:induction false} BalancedIsScript(s: seq<Op>)
    ensures IsScript(|s|, Balance(s), s)
  {
    if s != [] {
      BalancedIsScript(s[1..]);
      BalanceBound(s[1..]);
    }
  }

  lemma {:induction false} BalanceBound(s: seq<Op>)
    ensures -|s| <= Balance(s) <= |s|
  {
    if s != [] {
      BalanceBound(s[1..]);
    }
  }

  /** The bound whose block holds table row `row`. */
  function BlockOf(row: nat): (d: nat)
    requires row < 9
    ensures 1 <= d <= 3 && MATRIX_ROW_INDEX[d - 1] <= row <= MATRIX_ROW_INDEX[d - 1] + d
  {
    if row < 2 then 1 else if row < 5 then 2 else 3
  }

  /** The seven entries of row `row`. */
  function Row(row: nat): (r: seq<Option<string>>)
    requires row < 9
    ensures |r| == 7 && forall col :: 0 <= col < 7 ==> r[col] == MBLEVEN_TABLE[row * 7 + col]
  {
    MBLEVEN_TABLE[row * 7..row * 7 + 7]
  }

  /**
   * Row `row` holds, in its first `width` columns and nowhere else, scripts
   * spelled for the bound `d` and the length difference `k`.
   */
  predicate RowHolds(row: nat, d: nat, k: nat, width: nat)
    requires row < 9
  {
    forall col :: 0 <= col < 7 ==>
      (Row(row)[col].Some? <==> col < width) && (Row(row)[col].Some? ==> SpelledFor(d, k, Row(row)[col].value))
  }

  /** Row `row` spells every script for `(d, k)`. */
  ghost predicate RowComplete(row: nat, d: nat, k: nat)
    requires row < 9
  {
    forall s :: IsScript(d, k, s) ==> Some(Spell(s)) in Row(row)
  }

  lemma Row0Holds()
    ensures RowHolds(0, 1, 0, 1)
  {
    assert Row(0) == [Some("r"), None, None, None, None, None, None];
  }

  lemma Row1Holds()
    ensures RowHolds(1, 1, 1, 1)
  {
    assert Row(1) == [Some("d"), None, None, None, None, None, None];
  }

  lemma Row2Holds()
    ensures RowHolds(2, 2, 0, 3)
  {
    assert Row(2) == [Some("rr"), Some("id"), Some("di"), None, None, None, None];
  }

  lemma Row3Holds()
    ensures RowHolds(3, 2, 1, 2)
  {
    assert Row(3) == [Some("rd"), Some("dr"), None, None, None, None, None];
  }

  lemma Row4Holds()
    ensures RowHolds(4, 2, 2, 1)
  {
    assert Row(4) == [Some("dd"), None, None, None, None, None, None];
  }

  lemma Row5Entries()
    ensures Row(5) == [Some("rrr"), Some("idr"), Some("ird"), Some("rid"), Some("rdi"), Some("dri"), Some("dir")]
  {
  }

  lemma Row5Holds()
    ensures RowHolds(5, 3, 0, 7)
  {
    Row5Entries();
  }

  lemma Row6Entries()
    ensures Row(6) == [Some("rrd"), Some("rdr"), Some("drr"), Some("idd"), Some("did"), Some("ddi"), None]
  {
  }

  lemma Row6Holds()
    ensures RowHolds(6, 3, 1, 6)
  {
    Row6Entries();
  }

  lemma Row7Holds()
    ensures RowHolds(7, 3, 2, 3)
  {
    assert Row(7) == [Some("rdd"), Some("drd"), Some("ddr"), None, None, None, None];
  }

  lemma Row8Holds()
    ensures RowHolds(8, 3, 3, 1)
  {
    assert Row(8) == [Some("ddd"), None, None, None, None, None, None];
  }

  /**
   * Every row lists, before its first null entry and only there, scripts
   * spelled for its block's bound and its offset in the block.
   */
  lemma TableRow(row: nat) returns (width: nat)
    requires row < 9
    ensures 1 <= width <= 7 && RowHolds(row, BlockOf(row), row - MATRIX_ROW_INDEX[BlockOf(row) - 1], width)
  {
    if row == 0 {
      Row0Holds();
      width := 1;
    } else if row == 1 {
      Row1Holds();
      width := 1;
    } else if row == 2 {
      Row2Holds();
      width := 3;
    } else if row == 3 {
      Row3Holds();
      width := 2;
    } else if row == 4 {
      Row4Holds();
      width := 1;
    } else if row == 5 {
      Row5Holds();
      width := 7;
    } else if row == 6 {
      Row6Holds();
      width := 6;
    } else if row == 7 {
      Row7Holds();
      width := 3;
    } else {
      Row8Holds();
      width := 1;
    }
  }

  lemma TwoOps(s: seq<Op>)
    requires |s| == 2
    ensures Spell(s) == [Letter(s[0]), Letter(s[1])]
    ensures Balance(s) == Shift(s[0]) + Shift(s[1])
  {
    assert s[1..][1..] == [];
    assert Spell(s[1..]) == [Letter(s[1])];
    assert Balance(s[1..]) == Shift(s[1]);
  }

  lemma ThreeOps(s: seq<Op>)
    requires |s| == 3
    ensures Spell(s) == [Letter(s[0]), Letter(s[1]), Letter(s[2])]
    ensures Balance(s) == Shift(s[0]) + Shift(s[1]) + Shift(s[2])
  {
    assert s[1..][1..][1..] == [];
    assert Spell(s[1..][1..]) == [Letter(s[2])];
    assert Balance(s[1..][1..]) == Shift(s[2]);
  }

  lemma Row0Complete()
    ensures RowComplete(0, 1, 0)
  {
    assert Row(0) == [Some("r"), None, None, None, None, None, None];
    forall s | IsScript(1, 0, s)
      ensures Some(Spell(s)) in Row(0)
    {
      ScriptShape(1, 0, s);
      assert s[1..] == [];
      assert Spell(s) == [Letter(s[0])] && Balance(s) == Shift(s[0]);
    }
  }

  lemma Row1Complete()
    ensures RowComplete(1, 1, 1)
  {
    assert Row(1) == [Some("d"), None, None, None, None, None, None];
    forall s | IsScript(1, 1, s)
      ensures Some(Spell(s)) in Row(1)
    {
      ScriptShape(1, 1, s);
      assert s[1..] == [];
      assert Spell(s) == [Letter(s[0])] && Balance(s) == Shift(s[0]);
    }
  }

  lemma Row2Complete()
    ensures RowComplete(2, 2, 0)
  {
    assert Row(2) == [Some("rr"), Some("id"), Some("di"), None, None, None, None];
    forall s | IsScript(2, 0, s)
      ensures Some(Spell(s)) in Row(2)
    {
      ScriptShape(2, 0, s);
      TwoOps(s);
    }
  }

  lemma Row3Complete()
    ensures RowComplete(3, 2, 1)
  {
    assert Row(3) == [Some("rd"), Some("dr"), None, None, None, None, None];
    forall s | IsScript(2, 1, s)
      ensures Some(Spell(s)) in Row(3)
    {
      ScriptShape(2, 1, s);
      TwoOps(s);
    }
  }

  lemma Row4Complete()
    ensures RowComplete(4, 2, 2)
  {
    assert Row(4) == [Some("dd"), None, None, None, None, None, None];
    forall s | IsScript(2, 2, s)
      ensures Some(Spell(s)) in Row(4)
    {
      ScriptShape(2, 2, s);
      TwoOps(s);
    }
  }

  lemma Row5Complete()
    ensures RowComplete(5, 3, 0)
  {
    assert Row(5) == [Some("rrr"), Some("idr"), Some("ird"), Some("rid"), Some("rdi"), Some("dri"), Some("dir")];
    forall s | IsScript(3, 0, s)
      ensures Some(Spell(s)) in Row(5)
    {
      ScriptShape(3, 0, s);
      ThreeOps(s);
    }
  }

  lemma Row6Complete()
    ensures RowComplete(6, 3, 1)
  {
    assert Row(6) == [Some("rrd"), Some("rdr"), Some("drr"), Some("idd"), Some("did"), Some("ddi"), None];
    forall s | IsScript(3, 1, s)
      ensures Some(Spell(s)) in Row(6)
    {
      ScriptShape(3, 1, s);
      ThreeOps(s);
    }
  }

  lemma Row7Complete()
    ensures RowComplete(7, 3, 2)
  {
    assert Row(7) == [Some("rdd"), Some("drd"), Some("ddr"), None, None, None, None];
    forall s | IsScript(3, 2, s)
      ensures Some(Spell(s)) in Row(7)
    {
      ScriptShape(3, 2, s);
      ThreeOps(s);
    }
  }

  lemma Row8Complete()
    ensures RowComplete(8, 3, 3)
  {
    assert Row(8) == [Some("ddd"), None, None, None, None, None, None];
    forall s | IsScript(3, 3, s)
      ensures Some(Spell(s)) in Row(8)
    {
      ScriptShape(3, 3, s);
      ThreeOps(s);
    }
  }

  /** The row for bound `d` and length difference `k` spells every script for `(d, k)`. */
  lemma TableComplete(d: nat, k: nat)
    requires 1 <= d <= 3 && k <= d
    ensures RowComplete(MATRIX_ROW_INDEX[d - 1] + k, d, k)
  {
    var row := MATRIX_ROW_INDEX[d - 1] + k;
    if row == 0 {
      Row0Complete();
    } else if row == 1 {
      Row1Complete();
    } else if row == 2 {
      Row2Complete();
    } else if row == 3 {
      Row3Complete();
    } else if row == 4 {
      Row4Complete();
    } else if row == 5 {
      Row5Complete();
    } else if row == 6 {
      Row6Complete();
    } else if row == 7 {
      Row7Complete();
    } else {
      Row8Complete();
    }
  }

  /** A walk that stopped at a mismatch or ran out of a string, one step at a time. */
  lemma WalkStep(a: string, b: string, w: string, i: nat, j: nat, c: nat)
    requires i < |a| && j < |b| && c <= |w|
    ensures a[i] == b[j] ==> Cost(a[i..], b[j..], Unspell(w[c..])) == Cost(a[i + 1..], b[j + 1..], Unspell(w[c..]))
    ensures a[i] != b[j] && c == |w| ==> Cost(a[i..], b[j..], Unspell(w[c..])) == 2
    ensures a[i] != b[j] && c < |w| ==>
      Cost(a[i..], b[j..], Unspell(w[c..]))
      == 1 + Cost(a[i + (if w[c] == 'i' then 0 else 1)..], b[j + (if w[c] == 'd' then 0 else 1)..], Unspell(w[c + 1..]))
  {
    assert a[i..][1..] == a[i + 1..] && b[j..][1..] == b[j + 1..];
    if c < |w| {
      assert w[c..][1..] == w[c + 1..];
    }
  }

  /**
   * An entry of the table, in the block of the bound `d` or a later one,
   * spells at least `d` operations with the three script letters.
   */
  lemma TableEntryFits(row: nat, col: nat, d: nat)
    requires 1 <= d <= 3 && MATRIX_ROW_INDEX[d - 1] <= row < 9 && col < 7 && Row(row)[col].Some?
    ensures d <= |Row(row)[col].value| && Letters(Row(row)[col].value)
  {
    var width := TableRow(row);
  }

  /**
   * Every entry of the table stands for a script of its block's bound and
   * its row's offset in the block.
   */
  lemma TableEntryIsScript(row: nat, col: nat)
    requires row < 9 && col < 7 && Row(row)[col].Some?
    ensures var d := BlockOf(row); IsScript(d, row - MATRIX_ROW_INDEX[d - 1], Unspell(Row(row)[col].value))
  {
    var width := TableRow(row);
    var d := BlockOf(row);
    SpelledForIsScript(d, row - MATRIX_ROW_INDEX[d - 1], Row(row)[col].value);
  }

  /** Every entry of a row in the block of `d` or a later one fits a walk for `d`. */
  lemma TableRowFits(row: nat, d: nat)
    requires 1 <= d <= 3 && MATRIX_ROW_INDEX[d - 1] <= row < 9
    ensures forall col :: 0 <= col < 7 && Row(row)[col].Some? ==> d <= |Row(row)[col].value| && Letters(Row(row)[col].value)
  {
    forall col | 0 <= col < 7 && Row(row)[col].Some?
      ensures d <= |Row(row)[col].value| && Letters(Row(row)[col].value)
    {
      TableEntryFits(row, col, d);
    }
  }

  /**
   * Soundness of a row: an entry whose walk counts at most `d` differences,
   * in the block of `d` or a later one, shows the distance is at most `d`.
   */
  lemma TableEntrySound(a: string, b: string, d: nat, row: nat, col: nat)
    requires 1 <= d <= 3 && MATRIX_ROW_INDEX[d - 1] <= row < 9 && col < 7 && Row(row)[col].Some?
    requires Cost(a, b, Unspell(Row(row)[col].value)) <= d
    ensures Lev(a, b) <= d
  {
    TableEntryFits(row, col, d);
    CostSound(a, b, Unspell(Row(row)[col].value));
  }

  /**
   * Where a script sits in its row: at a column with no null entry before
   * it.
   */
  lemma TableColumn(d: nat, k: nat, s: seq<Op>) returns (c: nat)
    requires 1 <= d <= 3 && k <= d && IsScript(d, k, s)
    ensures var row := MATRIX_ROW_INDEX[d - 1] + k;
      c < 7 && Row(row)[c] == Some(Spell(s)) && forall c' :: 0 <= c' <= c ==> Row(row)[c'].Some?
  {
    var row := MATRIX_ROW_INDEX[d - 1] + k;
    TableComplete(d, k);
    c :| 0 <= c < 7 && Row(row)[c] == Some(Spell(s));
    var width := TableRow(row);
  }

  /**
   * Completeness of a row: when the distance is at most `d`, some entry of
   * the row for the bound `d` and the length difference, with no null entry
   * before it, walks within `d`.
   */
  lemma TableRowComplete(a: string, b: string, d: nat) returns (c: nat)
    requires 1 <= d <= 3 && |b| <= |a| && Lev(a, b) <= d
    ensures var row := MATRIX_ROW_INDEX[d - 1] + (|a| - |b|);
      row <= 8 && c < 7 && (forall c' :: 0 <= c' <= c ==> Row(row)[c'].Some?)
      && Cost(a, b, Unspell(Row(row)[c].value)) <= d
  {
    LevLengthGap(a, b);
    var s := CostComplete(a, b, d);
    c := TableColumn(d, |a| - |b|, s);
    UnspellSpell(s);
  }

  /**
   * The C++ mbleven matcher: the longer string first, then each script of
   * the row for the bound and the length difference in turn, stopping at
   * the first null entry. A walk spends the script's next letter at each
   * mismatch and gives up once more than `max_distance` differences are
   * counted or the script is used up; it succeeds when the differences
   * counted plus the two leftover tails are within the bound. The counters
   * are bytes, so both strings are shorter than 256 characters, and the
   * bound and the difference must select a row of the table.
   */
  method Mbleven(first_string: string, second_string: string, max_distance: nat) returns (r: bool)
    requires 1 <= max_distance <= 3 && |first_string| < 256 && |second_string| < 256
    requires MATRIX_ROW_INDEX[max_distance - 1] + Gap(first_string, second_string) <= 8
    ensures r <==> Lev(first_string, second_string) <= max_distance
  {
    var first, second := first_string, second_string;
    if |first| < |second| {
      first, second := second, first;
      LevSymmetric(first_string, second_string);
    }
    var row := MATRIX_ROW_INDEX[max_distance - 1] + (|first| - |second|);
    TableRowFits(row, max_distance);
    r := TryScripts(first, second, Row(row), max_distance);
    if r {
      ghost var col :| 0 <= col < 7 && Row(row)[col].Some? && Cost(first, second, Unspell(Row(row)[col].value)) <= max_distance;
      TableEntrySound(first, second, max_distance, row, col);
    } else if Lev(first, second) <= max_distance {
      var c := TableRowComplete(first, second, max_distance);
      assert false;
    }
  }

  /**
   * The column loop of the C++ matcher over the seven entries of a row:
   * each script in turn until the first null entry, succeeding as soon as
   * one walk stays within `max_distance`.
   */
  method TryScripts(first: string, second: string, scripts: seq<Option<string>>, max_distance: nat) returns (r: bool)
    requires |scripts| == 7
    requires forall col :: 0 <= col < 7 && scripts[col].Some? ==> max_distance <= |scripts[col].value| && Letters(scripts[col].value)
    ensures r <==> exists col :: (0 <= col < 7 && (forall c :: 0 <= c <= col ==> scripts[c].Some?)
      && Cost(first, second, Unspell(scripts[col].value)) <= max_distance)
  {
    var col := 0;
    while col < 7
      invariant col <= 7
      invariant forall c :: 0 <= c < col ==> scripts[c].Some? && Cost(first, second, Unspell(scripts[c].value)) > max_distance
    {
      var model := scripts[col];
      if model.None? {
        return false;
      }
      var i, j, c := Walk(first, second, model.value, max_distance);
      if c + (|first| - i) + (|second| - j) <= max_distance {
        return true;
      }
      col := col + 1;
    }
    return false;
  }

  /**
   * One walk of the C++ matcher under the spelled script `w`, which has at
   * least `max_distance` letters: it returns the positions reached and the
   * differences counted, and these are within the bound exactly when
   * walking the script counts at most `max_distance` differences.
   */
  method Walk(first: string, second: string, w: string, max_distance: nat) returns (i: nat, j: nat, c: nat)
    requires max_distance <= |w| && Letters(w)
    ensures i <= |first| && j <= |second| && c <= max_distance + 2
    ensures c + (|first| - i) + (|second| - j) <= max_distance <==> Cost(first, second, Unspell(w)) <= max_distance
  {
    i, j, c := 0, 0, 0;
    ghost var ended := false;
    while i < |first| && j < |second| && c <= max_distance
      invariant i <= |first| && j <= |second| && c <= max_distance + 2
      invariant !ended ==> c <= |w| && c + Cost(first[i..], second[j..], Unspell(w[c..])) == Cost(first, second, Unspell(w))
      invariant ended ==> c == max_distance + 2 && Cost(first, second, Unspell(w)) > max_distance
      decreases |first| - i + |second| - j + (max_distance + 2 - c)
    {
      WalkStep(first, second, w, i, j, c);
      if first[i] != second[j] {
        var letter := if c < |w| then w[c] else '\0';
        if letter == 'd' {
          i := i + 1;
        } else if letter == 'r' {
          i, j := i + 1, j + 1;
        } else if letter == '\0' {
          c := max_distance + 1;
          ended := true;
        } else if letter == 'i' {
          j := j + 1;
        }
        c := c + 1;
      } else {
        i, j := i + 1, j + 1;
      }
    }
  }

  /** How far apart the two lengths are. */
  function Gap(a: string, b: string): nat
  {
    if |a| < |b| then |b| - |a| else |a| - |b|
  }

  /**
   * The C++ Wagner-Fischer programme with 1-based loops: before row `i`
   * the first `|second_string| + 1` cells are copied from `ARR_INIT`, and
   * after row `i` cell `j` holds the distance between the first `i`
   * characters of `first_string` and the first `j` of `second_string`. The
   * row has 100 cells, so the second string must be shorter than that.
   */
  method BoundedWagnerFischer(first_string: string, second_string: string, max_distance: nat) returns (r: bool)
    requires |second_string| < |ARR_INIT|
    ensures r <==> Lev(first_string, second_string) <= max_distance
  {
    var arr := new nat[|ARR_INIT|];
    forall q | 0 <= q <= |second_string| {
      arr[q] := ARR_INIT[q];
    }
    var i := 1;
    while i <= |first_string|
      invariant 1 <= i <= |first_string| + 1
      invariant forall q {:trigger arr[q]} :: 0 <= q <= |second_string| ==> arr[q] == PrefixDistance(first_string, second_string, i - 1, q)
    {
      NextRow(arr, first_string, second_string, i);
      i := i + 1;
    }
    PrefixDistanceIsLev(first_string, second_string, |first_string|, |second_string|);
    assert first_string[..|first_string|] == first_string && second_string[..|second_string|] == second_string;
    r := arr[|second_string|] <= max_distance;
  }

  /**
   * One pass of the outer loop of the C++ programme: row `i` computed in
   * place from row `i - 1`, the diagonal cell kept aside before it is
   * overwritten.
   */
  method NextRow(arr: array<nat>, first_string: string, second_string: string, i: nat)
    requires 1 <= i <= |first_string| && |second_string| < arr.Length
    requires forall q {:trigger arr[q]} :: 0 <= q <= |second_string| ==> arr[q] == PrefixDistance(first_string, second_string, i - 1, q)
    modifies arr
    ensures forall q {:trigger arr[q]} :: 0 <= q <= |second_string| ==> arr[q] == PrefixDistance(first_string, second_string, i, q)
  {
    var diag := i - 1;
    arr[0] := i;
    var j := 1;
    while j <= |second_string|
      invariant 1 <= j <= |second_string| + 1
      invariant RowsMeet(arr[..], first_string, second_string, i, j)
      invariant diag == PrefixDistance(first_string, second_string, i - 1, j - 1)
    {
      var tmp := arr[j];
      WriteCell(arr, first_string, second_string, i, j, diag);
      diag := tmp;
      j := j + 1;
    }
  }
}

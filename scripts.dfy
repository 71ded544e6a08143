/**
 * The idea behind both mbleven matchers. Two strings `a` (the longer, or
 * equal) and `b` are walked together; equal characters advance both, and at
 * a mismatch the next operation of an edit script is spent: a replacement
 * advances both, a deletion advances `a`, an insertion advances `b`. A string
 * that runs out leaves the other's tail, counted by its length; a script
 * that runs out at a mismatch fails. `IsScript(d, k, s)` says that `s` is one
 * of the scripts of exactly `d` operations that can reconcile strings whose
 * lengths differ by `k`; both source tables list these scripts, written out.
 */
module EditScripts {
  import opened Levenshtein

  datatype Op = Replace | Delete | Insert

  /** How much an operation shortens the first string relative to the second. */
  function Shift(op: Op): int
  {
    match op case Replace => 0 case Delete => 1 case Insert => -1
  }

  /** Number of deletions minus number of insertions. */
  function Balance(s: seq<Op>): int
  {
    if s == [] then 0 else Shift(s[0]) + Balance(s[1..])
  }

  /**
   * The number of differences the walk counts under script `s`: one per
   * operation spent, the length of a leftover tail, and two more when the
   * script runs out at a mismatch.
   */
  function Cost(a: string, b: string, s: seq<Op>): nat
    decreases |a| + |b|
  {
    if |a| == 0 then |b|
    else if |b| == 0 then |a|
    else if a[0] == b[0] then Cost(a[1..], b[1..], s)
    else if s == [] then 2
    else 1 + match s[0]
      case Replace => Cost(a[1..], b[1..], s[1..])
      case Delete => Cost(a[1..], b, s[1..])
      case Insert => Cost(a, b[1..], s[1..])
  }

  /**
   * The scripts of `d` operations for a length difference `k` (length of the
   * first string minus that of the second): one operation followed by a
   * script of `d - 1` operations for the difference that remains.
   */
  predicate IsScript(d: nat, k: int, s: seq<Op>)
  {
    if d == 0 then s == [] && k == 0
    else
      -(d as int) <= k <= d && |s| > 0 &&
      match s[0]
      case Replace => IsScript(d - 1, k, s[1..])
      case Delete => IsScript(d - 1, k - 1, s[1..])
      case Insert => IsScript(d - 1, k + 1, s[1..])
  }

  /** Every script for `(d, k)` has `d` operations and balance `k`. */
  lemma {:induction false} ScriptShape(d: nat, k: int, s: seq<Op>)
    requires IsScript(d, k, s)
    ensures |s| == d && Balance(s) == k
  {
    if d > 0 {
      match s[0]
      case Replace => ScriptShape(d - 1, k, s[1..]);
      case Delete => ScriptShape(d - 1, k - 1, s[1..]);
      case Insert => ScriptShape(d - 1, k + 1, s[1..]);
    }
  }

  /** There is a script for every difference the budget can cover. */
  lemma {:induction false} ScriptExists(d: nat, k: int) returns (s: seq<Op>)
    requires -(d as int) <= k <= d
    ensures IsScript(d, k, s)
  {
    if d == 0 {
      s := [];
    } else if -(d - 1) <= k <= d - 1 {
      var t := ScriptExists(d - 1, k);
      s := [Replace] + t;
      assert s[1..] == t;
    } else if k > 0 {
      var t := ScriptExists(d - 1, k - 1);
      s := [Delete] + t;
      assert s[1..] == t;
    } else {
      var t := ScriptExists(d - 1, k + 1);
      s := [Insert] + t;
      assert s[1..] == t;
    }
  }

  /**
   * Soundness of the walk: unless the script ran out (which costs more than
   * its length plus one), the count is an upper bound on the distance.
   */
  lemma {:induction false} CostSound(a: string, b: string, s: seq<Op>)
    ensures Cost(a, b, s) <= |s| + 1 ==> Lev(a, b) <= Cost(a, b, s)
    decreases |a| + |b|
  {
    if |a| > 0 && |b| > 0 {
      if a[0] == b[0] {
        CostSound(a[1..], b[1..], s);
      } else if s != [] {
        match s[0]
        case Replace => CostSound(a[1..], b[1..], s[1..]);
        case Delete => CostSound(a[1..], b, s[1..]);
        case Insert => CostSound(a, b[1..], s[1..]);
      }
    }
  }

  /**
   * Completeness of the enumeration: when the distance is within `d`, some
   * script for `d` and the length difference walks within `d`.
   */
  lemma {:induction false} CostComplete(a: string, b: string, d: nat) returns (s: seq<Op>)
    requires Lev(a, b) <= d
    ensures IsScript(d, |a| - |b|, s) && Cost(a, b, s) <= d
    decreases |a| + |b|
  {
    var k := |a| - |b|;
    LevLengthGap(a, b);
    if |a| == 0 || |b| == 0 {
      s := ScriptExists(d, k);
    } else if a[0] == b[0] {
      s := CostComplete(a[1..], b[1..], d);
    } else if Lev(a[1..], b[1..]) <= d - 1 {
      var t := CostComplete(a[1..], b[1..], d - 1);
      s := [Replace] + t;
      assert s[0] == Replace && s[1..] == t;
    } else if Lev(a[1..], b) <= d - 1 {
      var t := CostComplete(a[1..], b, d - 1);
      s := [Delete] + t;
      assert s[0] == Delete && s[1..] == t;
    } else {
      var t := CostComplete(a, b[1..], d - 1);
      s := [Insert] + t;
      assert s[0] == Insert && s[1..] == t;
    }
  }

  /** The scripts for `(d, k)` decide the distance bound exactly. */
  lemma ScriptsDecide(a: string, b: string, d: nat)
    ensures (exists s :: IsScript(d, |a| - |b|, s) && Cost(a, b, s) <= d) <==> Lev(a, b) <= d
  {
    if Lev(a, b) <= d {
      var s := CostComplete(a, b, d);
    } else {
      forall s | IsScript(d, |a| - |b|, s)
        ensures Cost(a, b, s) > d
      {
        ScriptShape(d, |a| - |b|, s);
        CostSound(a, b, s);
      }
    }
  }
}

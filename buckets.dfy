/**
 * Both searchers keep their lines in buckets keyed by the length of a
 * line's key (the part before the separator, or the whole line) and answer
 * a query by scanning only the buckets whose key length can be within the
 * distance bound of the pattern. This module states what a query must
 * return, every stored line whose key is within the bound, and proves that
 * scanning buckets that cover the possible key lengths, each once, returns
 * exactly those lines, in some order.
 */
module Buckets {
  import opened Levenshtein

  /** A stored line and the length of its key. */
  datatype Entry = Entry(line: string, keyLen: nat)

  /** The key of a stored line: its first `keyLen` characters. */
  function Key(e: Entry): (k: string)
    ensures e.keyLen <= |e.line| ==> |k| == e.keyLen && k == e.line[..e.keyLen]
  {
    if e.keyLen <= |e.line| then e.line[..e.keyLen] else e.line
  }

  /** A line matches when its key is within `d` edits of the pattern. */
  predicate IsHit(e: Entry, pattern: string, d: nat)
  {
    Lev(pattern, Key(e)) <= d
  }

  /** The entries whose key has length `L`, in input order. */
  function Bucket(es: seq<Entry>, L: nat): seq<Entry>
  {
    if es == [] then []
    else Bucket(es[..|es| - 1], L) + (if es[|es| - 1].keyLen == L then [es[|es| - 1]] else [])
  }

  /** The lines of the entries, in order. */
  function Lines(es: seq<Entry>): (ls: seq<string>)
    ensures |ls| == |es| && forall i :: 0 <= i < |es| ==> ls[i] == es[i].line
  {
    seq(|es|, i requires 0 <= i < |es| => es[i].line)
  }

  /** The lines of the entries that match, in input order. */
  function Hits(es: seq<Entry>, pattern: string, d: nat): seq<string>
  {
    if es == [] then []
    else Hits(es[..|es| - 1], pattern, d) + (if IsHit(es[|es| - 1], pattern, d) then [es[|es| - 1].line] else [])
  }

  /** The matches found by scanning the buckets of the lengths `Ls`, in that order. */
  function Gather(es: seq<Entry>, pattern: string, d: nat, Ls: seq<nat>): seq<string>
  {
    if Ls == [] then []
    else Gather(es, pattern, d, Ls[..|Ls| - 1]) + Hits(Bucket(es, Ls[|Ls| - 1]), pattern, d)
  }

  predicate NoDup(Ls: seq<nat>)
  {
    forall x, y :: 0 <= x < y < |Ls| ==> Ls[x] != Ls[y]
  }

  /** Without repeats, the last length is not among the ones before it. */
  lemma NoDupInit(Ls: seq<nat>)
    requires NoDup(Ls) && Ls != []
    ensures NoDup(Ls[..|Ls| - 1]) && Ls[|Ls| - 1] !in Ls[..|Ls| - 1]
    ensures forall L :: L in Ls <==> L in Ls[..|Ls| - 1] || L == Ls[|Ls| - 1]
  {
    var init := Ls[..|Ls| - 1];
    assert Ls == init + [Ls[|Ls| - 1]];
  }

  /** A line is stored in every bucket its key length selects and no other. */
  lemma BucketSnoc(es: seq<Entry>, e: Entry, L: nat)
    ensures Bucket(es + [e], L) == Bucket(es, L) + (if e.keyLen == L then [e] else [])
  {
    assert (es + [e])[..|es|] == es;
  }

  lemma HitsSnoc(es: seq<Entry>, e: Entry, pattern: string, d: nat)
    ensures Hits(es + [e], pattern, d) == Hits(es, pattern, d) + (if IsHit(e, pattern, d) then [e.line] else [])
  {
    assert (es + [e])[..|es|] == es;
  }

  /** Scanning one more entry of a bucket adds its line exactly when it matches. */
  lemma HitsPrefix(es: seq<Entry>, k: nat, pattern: string, d: nat)
    requires k < |es|
    ensures Hits(es[..k + 1], pattern, d) == Hits(es[..k], pattern, d) + (if IsHit(es[k], pattern, d) then [es[k].line] else [])
  {
    assert es[..k + 1] == es[..k] + [es[k]];
    HitsSnoc(es[..k], es[k], pattern, d);
  }

  /** Scanning one more line of a bucket: it is pushed exactly when it matches. */
  lemma HitsStep(es: seq<Entry>, k: nat, pattern: string, d: nat, before: seq<string>, matched: bool, after: seq<string>)
    requires k < |es| && before == Hits(es[..k], pattern, d)
    requires matched <==> IsHit(es[k], pattern, d)
    requires after == if matched then before + [es[k].line] else before
    ensures after == Hits(es[..k + 1], pattern, d)
  {
    HitsPrefix(es, k, pattern, d);
  }

  /** The line of `e` if it matches, else nothing. */
  function Found(e: Entry, pattern: string, d: nat): seq<string>
  {
    if IsHit(e, pattern, d) then [e.line] else []
  }

  /** What one more stored line adds to a scan of the lengths `Ls`. */
  function Added(e: Entry, pattern: string, d: nat, Ls: seq<nat>): seq<string>
  {
    if e.keyLen in Ls then Found(e, pattern, d) else []
  }

  /**
   * One more stored line adds itself to the scan exactly when it matches
   * and its key length is among the scanned ones.
   */
  lemma {:induction false} GatherSnoc(es: seq<Entry>, e: Entry, pattern: string, d: nat, Ls: seq<nat>)
    requires NoDup(Ls)
    ensures multiset(Gather(es + [e], pattern, d, Ls))
      == multiset(Gather(es, pattern, d, Ls)) + multiset(Added(e, pattern, d, Ls))
  {
    if Ls != [] {
      var init, L := Ls[..|Ls| - 1], Ls[|Ls| - 1];
      NoDupInit(Ls);
      GatherSnoc(es, e, pattern, d, init);
      var step := if e.keyLen == L then Found(e, pattern, d) else [];
      GatherUnfold(es, e, pattern, d, Ls);
      AddedSnoc(e, pattern, d, Ls);
      BagStep(Gather(es + [e], pattern, d, init), Gather(es, pattern, d, init),
        Hits(Bucket(es, L), pattern, d), step, Added(e, pattern, d, init));
    }
  }

  /** The scans before and after one more line, bucket by bucket. */
  lemma GatherUnfold(es: seq<Entry>, e: Entry, pattern: string, d: nat, Ls: seq<nat>)
    requires Ls != []
    ensures Gather(es + [e], pattern, d, Ls)
      == Gather(es + [e], pattern, d, Ls[..|Ls| - 1]) + Hits(Bucket(es, Ls[|Ls| - 1]), pattern, d)
         + (if e.keyLen == Ls[|Ls| - 1] then Found(e, pattern, d) else [])
    ensures Gather(es, pattern, d, Ls)
      == Gather(es, pattern, d, Ls[..|Ls| - 1]) + Hits(Bucket(es, Ls[|Ls| - 1]), pattern, d)
  {
    BucketHitsSnoc(es, e, pattern, d, Ls[|Ls| - 1]);
  }

  /** The matches of one bucket before and after one more line. */
  lemma BucketHitsSnoc(es: seq<Entry>, e: Entry, pattern: string, d: nat, L: nat)
    ensures Hits(Bucket(es + [e], L), pattern, d)
      == Hits(Bucket(es, L), pattern, d) + (if e.keyLen == L then Found(e, pattern, d) else [])
  {
    BucketSnoc(es, e, L);
    if e.keyLen == L {
      HitsSnoc(Bucket(es, L), e, pattern, d);
    } else {
      assert Bucket(es + [e], L) == Bucket(es, L);
    }
  }

  /** Without repeats in `Ls`, the new line is added by the last bucket or by the ones before. */
  lemma AddedSnoc(e: Entry, pattern: string, d: nat, Ls: seq<nat>)
    requires Ls != [] && Ls[|Ls| - 1] !in Ls[..|Ls| - 1]
    ensures Added(e, pattern, d, Ls)
      == Added(e, pattern, d, Ls[..|Ls| - 1]) + (if e.keyLen == Ls[|Ls| - 1] then Found(e, pattern, d) else [])
  {
    var init, L := Ls[..|Ls| - 1], Ls[|Ls| - 1];
    assert Ls == init + [L];
    assert e.keyLen in Ls <==> e.keyLen in init || e.keyLen == L;
  }

  lemma BagStep(after0: seq<string>, before0: seq<string>, bucket: seq<string>, step: seq<string>, added0: seq<string>)
    requires multiset(after0) == multiset(before0) + multiset(added0)
    ensures multiset(after0 + bucket + step) == multiset(before0 + bucket) + multiset(added0 + step)
  {
  }

  /**
   * Scanning each of the key lengths `Ls` once, where `Ls` holds every key
   * length a match can have, finds every match exactly once.
   */
  lemma {:induction false} GatherFindsAllHits(es: seq<Entry>, pattern: string, d: nat, Ls: seq<nat>)
    requires NoDup(Ls)
    requires forall e :: e in es && IsHit(e, pattern, d) ==> e.keyLen in Ls
    ensures multiset(Gather(es, pattern, d, Ls)) == multiset(Hits(es, pattern, d))
  {
    if es == [] {
      GatherEmpty(pattern, d, Ls);
    } else {
      var init, e := es[..|es| - 1], es[|es| - 1];
      assert es == init + [e];
      GatherFindsAllHits(init, pattern, d, Ls);
      GatherSnoc(init, e, pattern, d, Ls);
      HitsSnoc(init, e, pattern, d);
      assert Added(e, pattern, d, Ls) == Found(e, pattern, d);
    }
  }

  /** Nothing stored, nothing found. */
  lemma {:induction false} GatherEmpty(pattern: string, d: nat, Ls: seq<nat>)
    ensures Gather([], pattern, d, Ls) == []
  {
    if Ls != [] {
      GatherEmpty(pattern, d, Ls[..|Ls| - 1]);
    }
  }

  /** A match's key length is within `d` of the pattern's length. */
  lemma HitLength(e: Entry, pattern: string, d: nat)
    requires e.keyLen <= |e.line| && IsHit(e, pattern, d)
    ensures |pattern| <= e.keyLen + d && e.keyLen <= |pattern| + d
  {
    LevLengthGap(pattern, Key(e));
  }

  /** A bucket holds only lines of its key length, all of them stored. */
  lemma {:induction false} BucketMembers(es: seq<Entry>, L: nat)
    ensures forall e :: e in Bucket(es, L) ==> e in es && e.keyLen == L
  {
    if es != [] {
      var init := es[..|es| - 1];
      BucketMembers(init, L);
      assert es == init + [es[|es| - 1]];
    }
  }

  /** Every line in the bucket of `L` has key length `L`, within the line. */
  lemma {:induction false} BucketShape(es: seq<Entry>, L: nat)
    requires forall e :: e in es ==> e.keyLen <= |e.line|
    ensures forall i :: 0 <= i < |Bucket(es, L)| ==> Bucket(es, L)[i].keyLen == L <= |Bucket(es, L)[i].line|
  {
    if es != [] {
      var init := es[..|es| - 1];
      assert es == init + [es[|es| - 1]];
      BucketShape(init, L);
    }
  }

  /** No stored line of key length `L`, empty bucket. */
  lemma {:induction false} BucketEmpty(es: seq<Entry>, L: nat)
    requires forall e :: e in es ==> e.keyLen != L
    ensures Bucket(es, L) == []
  {
    if es != [] {
      var init := es[..|es| - 1];
      assert es == init + [es[|es| - 1]];
      BucketEmpty(init, L);
    }
  }

  /** The key lengths `lo`, `lo + 1`, ..., up to but not including `hi`. */
  function Range(lo: nat, hi: nat): (r: seq<nat>)
    ensures |r| == if lo <= hi then hi - lo else 0
    decreases hi
  {
    if hi <= lo then [] else Range(lo, hi - 1) + [hi - 1]
  }

  /** The `i`-th scanned key length is `lo + i`. */
  lemma {:induction false} RangeAt(lo: nat, hi: nat)
    ensures forall i :: 0 <= i < |Range(lo, hi)| ==> Range(lo, hi)[i] == lo + i
    decreases hi
  {
    if lo < hi {
      RangeAt(lo, hi - 1);
    }
  }

  /** Scanning one more key length adds the matches of its bucket. */
  lemma GatherRange(es: seq<Entry>, pattern: string, d: nat, lo: nat, hi: nat, before: seq<string>, found: seq<string>)
    requires lo <= hi && before == Gather(es, pattern, d, Range(lo, hi))
    requires found == Hits(Bucket(es, hi), pattern, d)
    ensures before + found == Gather(es, pattern, d, Range(lo, hi + 1))
  {
    assert Range(lo, hi + 1)[..hi - lo] == Range(lo, hi);
  }

  lemma RangeNoDup(lo: nat, hi: nat)
    ensures NoDup(Range(lo, hi))
  {
    RangeAt(lo, hi);
  }

  lemma RangeHas(lo: nat, hi: nat, L: nat)
    requires lo <= L < hi
    ensures L in Range(lo, hi)
  {
    RangeAt(lo, hi);
    assert Range(lo, hi)[L - lo] == L;
  }

  /** Scanning one more key length adds the matches of its bucket. */
  lemma GatherSnocLength(es: seq<Entry>, pattern: string, d: nat, Ls: seq<nat>, L: nat)
    ensures Gather(es, pattern, d, Ls + [L]) == Gather(es, pattern, d, Ls) + Hits(Bucket(es, L), pattern, d)
  {
    assert (Ls + [L])[..|Ls|] == Ls;
  }

  /** A length not scanned before keeps the scanned lengths free of repeats. */
  lemma NoDupSnoc(Ls: seq<nat>, L: nat)
    requires NoDup(Ls) && L !in Ls
    ensures NoDup(Ls + [L])
  {
  }
}

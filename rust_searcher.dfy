/**
 * The Rust searcher (src/lib.rs). Building it reads the file line by line,
 * measures each line's key (the characters before the first occurrence of
 * the separator, or the whole line) and appends the line to the bucket of
 * that key length: one string holding the bucket's lines back to back and
 * the offset where each starts. A search scans the buckets whose key length
 * is within the distance bound of the pattern's length and returns every
 * line whose key is within the bound.
 */
module RustSearcher {
  import opened Levenshtein
  import opened Text
  import opened Buckets
  import opened RustMbleven

  /** A line of the input file: its characters and whether they are valid UTF-8. */
  datatype RawLine = RawLine(text: string, utf8: bool)

  /** One bucket: its lines written back to back, and the offset of each. */
  datatype Index = Index(text: string, starts: seq<nat>)

  /**
   * The key length of a line: up to the first occurrence of the separator,
   * or the whole line when the separator is empty or does not occur.
   */
  function PrefixLen(line: string, separator: string): (n: nat)
    ensures n <= |line|
    ensures separator == [] ==> n == |line|
    ensures separator != [] && n < |line| ==> OccursAt(line, separator, n)
    ensures separator != [] ==> forall i :: 0 <= i < n ==> !OccursAt(line, separator, i)
  {
    if separator == [] then |line|
    else match FindFrom(line, separator, 0)
      case Some(pos) => pos
      case None => |line|
  }

  /** The stored lines, in input order: the valid UTF-8 ones. */
  function Kept(lines: seq<RawLine>, separator: string): seq<Entry>
  {
    if lines == [] then []
    else
      var last := lines[|lines| - 1];
      Kept(lines[..|lines| - 1], separator)
        + (if last.utf8 then [Entry(last.text, PrefixLen(last.text, separator))] else [])
  }

  /** The largest key length over every line read, valid or not. */
  function MaxPrefix(lines: seq<RawLine>, separator: string): (m: nat)
    ensures forall i :: 0 <= i < |lines| ==> PrefixLen(lines[i].text, separator) <= m
  {
    if lines == [] then 0
    else
      var n := PrefixLen(lines[|lines| - 1].text, separator);
      var m := MaxPrefix(lines[..|lines| - 1], separator);
      if m < n then n else m
  }

  /** The longest key length is the key length of one of the lines read. */
  lemma {:induction false} MaxPrefixAttained(lines: seq<RawLine>, separator: string) returns (i: nat)
    requires lines != []
    ensures i < |lines| && PrefixLen(lines[i].text, separator) == MaxPrefix(lines, separator)
  {
    var init := lines[..|lines| - 1];
    if init == [] || MaxPrefix(init, separator) < PrefixLen(lines[|lines| - 1].text, separator) {
      i := |lines| - 1;
    } else {
      i := MaxPrefixAttained(init, separator);
      assert init[i] == lines[i];
    }
  }

  /** The key lengths of every line read, valid or not: each gets a bucket. */
  function Prefixes(lines: seq<RawLine>, separator: string): (ks: set<nat>)
    ensures forall i :: 0 <= i < |lines| ==> PrefixLen(lines[i].text, separator) in ks
  {
    if lines == [] then {}
    else Prefixes(lines[..|lines| - 1], separator) + {PrefixLen(lines[|lines| - 1].text, separator)}
  }

  /** `index` holds the lines of `bucket` back to back, each at its offset. */
  predicate Stores(index: Index, bucket: seq<Entry>)
  {
    index.text == Concat(Lines(bucket))
    && |index.starts| == |bucket|
    && forall i :: 0 <= i < |bucket| ==> index.starts[i] == |Concat(Lines(bucket)[..i])|
  }

  /** The summaries of the first `n + 1` lines from those of the first `n`. */
  lemma ReadLine(lines: seq<RawLine>, separator: string, n: nat, len: nat)
    requires n < |lines| && len == PrefixLen(lines[n].text, separator)
    ensures lines[n].utf8 ==> Kept(lines[..n + 1], separator) == Kept(lines[..n], separator) + [Entry(lines[n].text, len)]
    ensures !lines[n].utf8 ==> Kept(lines[..n + 1], separator) == Kept(lines[..n], separator)
    ensures MaxPrefix(lines[..n + 1], separator)
      == if MaxPrefix(lines[..n], separator) < len then len else MaxPrefix(lines[..n], separator)
    ensures Prefixes(lines[..n + 1], separator) == Prefixes(lines[..n], separator) + {len}
  {
    assert lines[..n + 1][..n] == lines[..n];
    assert Kept(lines[..n], separator) + [] == Kept(lines[..n], separator);
  }

  /** Appending a line and its offset keeps a bucket stored. */
  lemma StoresSnoc(index: Index, bucket: seq<Entry>, e: Entry)
    requires Stores(index, bucket)
    ensures Stores(Index(index.text + e.line, index.starts + [|index.text|]), bucket + [e])
  {
    var ls := Lines(bucket + [e]);
    assert ls[..|bucket|] == Lines(bucket);
    assert ls == Lines(bucket) + [e.line];
    forall i | 0 <= i < |bucket|
      ensures ls[..i] == Lines(bucket)[..i]
    {
    }
  }

  /** The bucket of key length `L`, or a new empty one. */
  function BucketOf(idx: map<nat, Index>, L: nat): Index
  {
    if L in idx then idx[L] else Index([], [])
  }

  /** A bucket with one more line appended when `stored`, else unchanged. */
  function Appended(index: Index, line: string, stored: bool): (r: Index)
    ensures stored ==> r.text == index.text + line && r.starts == index.starts + [|index.text|]
    ensures !stored ==> r == index
  {
    if stored then Index(index.text + line, index.starts + [|index.text|]) else index
  }

  /**
   * Reading one more line: its key length gets a bucket if it had none,
   * and a stored line is appended to it; every bucket stays stored.
   */
  lemma StoreEntry(idx: map<nat, Index>, es: seq<Entry>, e: Entry, stored: bool)
    requires forall L :: L in idx ==> Stores(idx[L], Bucket(es, L))
    requires forall x :: x in es ==> x.keyLen in idx
    ensures var idx' := idx[e.keyLen := Appended(BucketOf(idx, e.keyLen), e.line, stored)];
      var es' := if stored then es + [e] else es;
      forall L :: L in idx' ==> Stores(idx'[L], Bucket(es', L))
  {
    var index := BucketOf(idx, e.keyLen);
    if e.keyLen !in idx {
      BucketEmpty(es, e.keyLen);
    }
    assert Stores(index, Bucket(es, e.keyLen));
    if stored {
      var idx' := idx[e.keyLen := Appended(index, e.line, stored)];
      forall L | L in idx'
        ensures Stores(idx'[L], Bucket(es + [e], L))
      {
        BucketSnoc(es, e, L);
        if L == e.keyLen {
          StoresSnoc(index, Bucket(es, L), e);
        } else {
          assert Bucket(es + [e], L) == Bucket(es, L);
        }
      }
    }
  }

  /** After the first `n` lines: what was stored, the longest key, and the keys seen. */
  ghost predicate Summarised(lines: seq<RawLine>, separator: string, n: nat, keys: set<nat>, maxLen: nat, es: seq<Entry>)
    requires n <= |lines|
  {
    es == Kept(lines[..n], separator)
    && maxLen == MaxPrefix(lines[..n], separator)
    && keys == Prefixes(lines[..n], separator)
  }

  /**
   * Every bucket holds its lines back to back; every stored line's key
   * length is within the line, at most the longest, and has a bucket.
   */
  ghost predicate Filed(idx: map<nat, Index>, maxLen: nat, es: seq<Entry>)
  {
    (forall L :: L in idx ==> Stores(idx[L], Bucket(es, L)))
    && (forall e :: e in es ==> e.keyLen <= |e.line| && e.keyLen <= maxLen && e.keyLen in idx)
  }

  lemma SummaryStep(lines: seq<RawLine>, separator: string, n: nat, keys: set<nat>, maxLen: nat, es: seq<Entry>)
    requires n < |lines| && Summarised(lines, separator, n, keys, maxLen, es)
    ensures var line := lines[n].text;
      var len := PrefixLen(line, separator);
      Summarised(lines, separator, n + 1, keys + {len},
        if maxLen < len then len else maxLen,
        if lines[n].utf8 then es + [Entry(line, len)] else es)
  {
    ReadLine(lines, separator, n, PrefixLen(lines[n].text, separator));
  }

  lemma FiledStep(idx: map<nat, Index>, maxLen: nat, es: seq<Entry>, e: Entry, stored: bool)
    requires Filed(idx, maxLen, es) && e.keyLen <= |e.line|
    ensures Filed(idx[e.keyLen := Appended(BucketOf(idx, e.keyLen), e.line, stored)],
      if maxLen < e.keyLen then e.keyLen else maxLen,
      if stored then es + [e] else es)
  {
    StoreEntry(idx, es, e, stored);
  }

  /**
   * Where the line at position `k` of a stored bucket lies: its first `L`
   * characters from its offset, and the whole line up to the next offset
   * (or the end of the text for the last line).
   */
  lemma StoredLine(index: Index, bucket: seq<Entry>, k: nat, L: nat)
    requires Stores(index, bucket) && k < |bucket| && bucket[k].keyLen == L <= |bucket[k].line|
    ensures index.starts[k] + L <= |index.text|
    ensures index.text[index.starts[k]..index.starts[k] + L] == Key(bucket[k])
    ensures var stop := if k + 1 == |bucket| then |index.text| else index.starts[k + 1];
      index.starts[k] <= stop <= |index.text| && index.text[index.starts[k]..stop] == bucket[k].line
  {
    var ls := Lines(bucket);
    ConcatAt(ls, k);
    var start := index.starts[k];
    assert start == |Concat(ls[..k])|;
    assert ls[k] == bucket[k].line;
    if k + 1 < |bucket| {
      ConcatPrefix(ls, k);
      ConcatAt(ls, k + 1);
      assert index.starts[k + 1] == |Concat(ls[..k + 1])|;
    }
    SlicePrefix(index.text, start, ls[k], L);
  }

  /** The offsets of a bucket never decrease: each line starts where the one before it ends. */
  lemma {:induction false} OffsetsAscend(index: Index, bucket: seq<Entry>, i: nat, j: nat)
    requires Stores(index, bucket) && i <= j < |bucket|
    ensures index.starts[i] <= index.starts[j]
    decreases j - i
  {
    if i < j {
      OffsetsAscend(index, bucket, i, j - 1);
      ConcatPrefix(Lines(bucket), j - 1);
      assert index.starts[j - 1] == |Concat(Lines(bucket)[..j - 1])|;
      assert index.starts[j] == |Concat(Lines(bucket)[..j])|;
    }
  }

  /** One more than the largest value of a machine word (`usize` on a 64-bit target). */
  const WORD: nat := 0x1_0000_0000_0000_0000

  /** Reducing a difference of two words modulo the word size. */
  lemma WordDifference(x: int)
    requires -(WORD as int) < x < WORD
    ensures x % WORD == if x < 0 then x + WORD else x
  {
    if x < 0 {
      assert x + WORD == x + 1 * WORD;
      assert 0 <= x + WORD < WORD;
    }
  }

  /**
   * The shortest key length scanned, as the search computes it: the
   * subtraction is on unsigned machine words, so a distance bound above
   * the pattern's length wraps around to a huge value.
   */
  function FromLenAsWritten(pattern_len: nat, max_distance: nat): (from: nat)
    requires pattern_len < WORD && max_distance < WORD
    ensures max_distance <= pattern_len ==> from == pattern_len - max_distance
    ensures pattern_len < max_distance ==> from == WORD + pattern_len - max_distance && from > pattern_len
  {
    // The maximum with zero that follows the subtraction in the source is
    // taken on an unsigned word, so it never changes the value.
    WordDifference(pattern_len - max_distance);
    (pattern_len - max_distance) % WORD
  }

  /**
   * With the wrap-around, an empty pattern at distance one scans no bucket
   * at all, yet a stored one-character line is within distance one of it.
   */
  lemma FromLenAsWrittenMissesMatches()
    ensures Range(FromLenAsWritten(0, 1), 1 + 1) == []
    ensures Hits([Entry("b", 1)], "", 1) == ["b"]
  {
    assert FromLenAsWritten(0, 1) == WORD - 1;
    var e := Entry("b", 1);
    assert Key(e) == "b";
    assert Lev("", "b") == 1;
    assert [e][..0] == [];
  }

  /**
   * The shortest key length scanned, as intended: the pattern's length
   * less the bound, but never below zero. Every key length that can be
   * within the bound is scanned, and none shorter.
   */
  function FromLen(pattern_len: nat, max_distance: nat): (from: nat)
    ensures pattern_len <= from + max_distance
    ensures from == 0 || from + max_distance == pattern_len
  {
    if max_distance <= pattern_len then pattern_len - max_distance else 0
  }

  /**
   * The test each bucket scan applies to a line's key: Wagner-Fischer for a
   * bound above three, otherwise the precomputed scripts for the length
   * difference, with the longer string first.
   */
  method Matches(pattern: string, entry: string, max_distance: nat, changes_matrix: seq<nat>) returns (matched: bool)
    requires max_distance > 3 ==> |entry| < |WAGNER_FISCHER_ARR_INIT|
    requires max_distance <= 3 ==> |pattern| <= |entry| + max_distance && |entry| <= |pattern| + max_distance
    requires max_distance <= 3 && |entry| < |pattern| ==> changes_matrix == MatrixRow(max_distance, |pattern| - |entry|)
    requires max_distance <= 3 && |pattern| <= |entry| ==> changes_matrix == MatrixRow(max_distance, |entry| - |pattern|)
    ensures matched <==> Lev(pattern, entry) <= max_distance
  {
    if max_distance > 3 {
      matched := WagnerFischer(pattern, entry, max_distance);
    } else if |entry| < |pattern| {
      matched := FastMbleven(pattern, entry, changes_matrix, max_distance);
    } else {
      matched := FastMbleven(entry, pattern, changes_matrix, max_distance);
      LevSymmetric(entry, pattern);
    }
  }

  /**
   * The loop over the input file's lines: each line's key length counts
   * towards the longest and gets a bucket, and a valid line is appended to
   * its bucket with its offset.
   */
  method ReadLines(lines: seq<RawLine>, separator: string) returns (idx: map<nat, Index>, maxLen: nat, ghost es: seq<Entry>)
    ensures es == Kept(lines, separator) && maxLen == MaxPrefix(lines, separator)
    ensures idx.Keys == Prefixes(lines, separator)
    ensures Filed(idx, maxLen, es)
  {
    idx := map[];
    maxLen := 0;
    es := [];
    var n := 0;
    while n < |lines|
      invariant 0 <= n <= |lines|
      invariant Summarised(lines, separator, n, idx.Keys, maxLen, es)
      invariant Filed(idx, maxLen, es)
    {
      var line := lines[n].text;
      var prefix_len := PrefixLen(line, separator);
      SummaryStep(lines, separator, n, idx.Keys, maxLen, es);
      FiledStep(idx, maxLen, es, Entry(line, prefix_len), lines[n].utf8);
      if maxLen < prefix_len {
        maxLen := prefix_len;
      }
      var index := Appended(BucketOf(idx, prefix_len), line, lines[n].utf8);
      if lines[n].utf8 {
        es := es + [Entry(line, prefix_len)];
      }
      idx := idx[prefix_len := index];
      n := n + 1;
    }
    assert lines[..n] == lines;
  }

  /**
   * The work done for the `k`-th offset of a bucket: the key is cut at the
   * offset, matched, and on a match the whole line, up to the next offset or
   * the end of the text, is pushed.
   */
  method VisitLine(index: Index, ghost bucket: seq<Entry>, k: nat, pattern: string, max_distance: nat,
                   current_len: nat, changes_matrix: seq<nat>) returns (pushed: seq<string>)
    requires Stores(index, bucket) && k < |bucket| && bucket[k].keyLen == current_len <= |bucket[k].line|
    requires max_distance > 3 ==> current_len < |WAGNER_FISCHER_ARR_INIT|
    requires max_distance <= 3 ==> |pattern| <= current_len + max_distance && current_len <= |pattern| + max_distance
    requires max_distance <= 3 && current_len < |pattern| ==> changes_matrix == MatrixRow(max_distance, |pattern| - current_len)
    requires max_distance <= 3 && |pattern| <= current_len ==> changes_matrix == MatrixRow(max_distance, current_len - |pattern|)
    ensures pushed == Found(bucket[k], pattern, max_distance)
  {
    var start_pos := index.starts[k];
    StoredLine(index, bucket, k, current_len);
    var entry := index.text[start_pos..start_pos + current_len];
    assert |entry| == current_len;
    var matched := Matches(pattern, entry, max_distance, changes_matrix);
    if matched {
      var stop := if k + 1 == |index.starts| then |index.text| else index.starts[k + 1];
      pushed := [index.text[start_pos..stop]];
    } else {
      pushed := [];
    }
  }

  /**
   * The scan of one bucket: every line whose key matches, in the bucket's
   * order, each cut from the bucket's text between its offset and the next.
   */
  method ScanBucket(index: Index, ghost bucket: seq<Entry>, pattern: string, max_distance: nat,
                    current_len: nat, changes_matrix: seq<nat>) returns (found: seq<string>)
    requires Stores(index, bucket)
    requires forall i :: 0 <= i < |bucket| ==> bucket[i].keyLen == current_len <= |bucket[i].line|
    requires max_distance > 3 ==> current_len < |WAGNER_FISCHER_ARR_INIT| || bucket == []
    requires max_distance <= 3 ==> |pattern| <= current_len + max_distance && current_len <= |pattern| + max_distance
    requires max_distance <= 3 && current_len < |pattern| ==> changes_matrix == MatrixRow(max_distance, |pattern| - current_len)
    requires max_distance <= 3 && |pattern| <= current_len ==> changes_matrix == MatrixRow(max_distance, current_len - |pattern|)
    ensures found == Hits(bucket, pattern, max_distance)
  {
    found := [];
    var k := 0;
    while k < |index.starts|
      invariant 0 <= k <= |index.starts| == |bucket|
      invariant found == Hits(bucket[..k], pattern, max_distance)
    {
      var pushed := VisitLine(index, bucket, k, pattern, max_distance, current_len, changes_matrix);
      HitsPrefix(bucket, k, pattern, max_distance);
      found := found + pushed;
      k := k + 1;
    }
    assert bucket[..k] == bucket;
  }

  /** Every bucket of a key length from `lo` to `hi` that is `cap` or longer holds no line. */
  predicate ShortBuckets(indices: map<nat, Index>, lo: int, hi: int, cap: nat)
  {
    forall L :: L in indices && lo <= L <= hi && cap <= L ==> indices[L].starts == []
  }

  /**
   * One key length of a search: the matches in its bucket, or none when no
   * line had a key of that length. The scripts are picked once per bucket.
   */
  method ScanLength(indices: map<nat, Index>, max_length: nat, ghost es: seq<Entry>, pattern: string,
                    max_distance: nat, current_len: nat) returns (found: seq<string>)
    requires Filed(indices, max_length, es)
    requires |pattern| <= current_len + max_distance && current_len <= |pattern| + max_distance
    requires max_distance > 3 && current_len in indices ==>
      current_len < |WAGNER_FISCHER_ARR_INIT| || indices[current_len].starts == []
    ensures found == Hits(Bucket(es, current_len), pattern, max_distance)
  {
    found := [];
    if current_len in indices {
      var index := indices[current_len];
      BucketShape(es, current_len);
      var changes_matrix: seq<nat> := [];
      if max_distance <= 3 {
        changes_matrix := if current_len < |pattern| then MatrixRow(max_distance, |pattern| - current_len)
          else MatrixRow(max_distance, current_len - |pattern|);
      }
      found := ScanBucket(index, Bucket(es, current_len), pattern, max_distance, current_len, changes_matrix);
    } else {
      BucketEmpty(es, current_len);
    }
  }

  /** Every match has a key length in the scanned range, which holds each length once. */
  lemma RangeFindsAll(es: seq<Entry>, pattern: string, d: nat, maxLen: nat, lo: nat, hi: nat)
    requires forall e :: e in es ==> e.keyLen <= |e.line| && e.keyLen <= maxLen
    requires lo == FromLen(|pattern|, d) && lo <= hi && (|pattern| + d < hi || maxLen < hi)
    ensures multiset(Gather(es, pattern, d, Range(lo, hi))) == multiset(Hits(es, pattern, d))
  {
    RangeNoDup(lo, hi);
    forall e | e in es && IsHit(e, pattern, d)
      ensures e.keyLen in Range(lo, hi)
    {
      HitLength(e, pattern, d);
      RangeHas(lo, hi, e.keyLen);
    }
    GatherFindsAllHits(es, pattern, d, Range(lo, hi));
  }

  class Searcher {
    var indices: map<nat, Index>
    var max_length: nat
    /** The stored lines with their key lengths, in input order. */
    ghost var Entries: seq<Entry>

    ghost predicate Valid()
      reads this
    {
      Filed(indices, max_length, Entries)
    }

    /**
     * Builds the buckets from the lines of the input file. Every line's key
     * length counts towards the longest and gets a bucket; only valid UTF-8
     * lines are stored.
     */
    constructor (lines: seq<RawLine>, separator: string)
      ensures Valid()
      ensures Entries == Kept(lines, separator)
      ensures max_length == MaxPrefix(lines, separator)
      ensures indices.Keys == Prefixes(lines, separator)
    {
      var idx, maxLen;
      ghost var es;
      idx, maxLen, es := ReadLines(lines, separator);
      indices := idx;
      max_length := maxLen;
      Entries := es;
    }

    /**
     * Every stored line whose key is within `max_distance` edits of
     * `pattern`. Buckets run in parallel in the source, so only the
     * multiset of results is fixed, not their order.
     */
    method Search(pattern: string, max_distance: nat) returns (results: seq<string>)
      requires Valid()
      requires max_distance > 3 ==>
        ShortBuckets(indices, FromLen(|pattern|, max_distance), |pattern| + max_distance, |WAGNER_FISCHER_ARR_INIT|)
      ensures multiset(results) == multiset(Hits(Entries, pattern, max_distance))
    {
      results := [];
      var pattern_len := |pattern|;
      var from_len := FromLen(pattern_len, max_distance);
      var to_len := if pattern_len + max_distance < max_length then pattern_len + max_distance else max_length;
      ghost var es := Entries;
      var current_len := from_len;
      while current_len < to_len + 1
        invariant from_len <= current_len
        invariant results == Gather(es, pattern, max_distance, Range(from_len, current_len))
      {
        var found := ScanLength(indices, max_length, es, pattern, max_distance, current_len);
        GatherRange(es, pattern, max_distance, from_len, current_len, results, found);
        results := results + found;
        current_len := current_len + 1;
      }
      RangeFindsAll(Entries, pattern, max_distance, max_length, from_len, current_len);
    }
  }
}

/**
 * The C++ searcher (src/fastzy.cpp). Building it reads the file line by
 * line, drops the lines it cannot key and appends every other line,
 * followed by a newline, to the string of its key length: the whole line's
 * length without a separator, else the length of the text before the first
 * character of the separator. A lookup scans the strings of the key
 * lengths within the distance bound of the pattern's length, cuts each
 * line and its key back out of the string, and returns every line whose
 * key is within the bound.
 */
module CppSearcher {
  import opened Levenshtein
  import opened Text
  import opened Buckets
  import CppMatchers

  /**
   * The key length under which a line read from the input file is filed,
   * or `None` when it is dropped: an empty line is dropped; without a
   * separator the key is the whole line; with one, the key runs up to the
   * first character that is one of the separator's, and a line without
   * such a character, or starting with one, is dropped.
   */
  function KeyLength(line: string, separator: string): (r: Option<nat>)
    ensures r.Some? ==> 0 < r.value <= |line|
    ensures r.Some? && separator == [] ==> r.value == |line|
    ensures r.Some? && separator != [] ==>
      r.value < |line| && line[r.value] in separator && forall i :: 0 <= i < r.value ==> line[i] !in separator
    ensures r.None? <==>
      line == [] || (separator != [] && (line[0] in separator || forall i :: 0 <= i < |line| ==> line[i] !in separator))
  {
    if line == [] then None
    else if separator == [] then Some(|line|)
    else match FindFirstOf(line, separator)
      case None => None
      case Some(prefix_length) => if prefix_length == 0 then None else Some(prefix_length)
  }

  /** What reading `line` adds to the stored lines. */
  function Filed(line: string, separator: string): seq<Entry>
  {
    match KeyLength(line, separator)
    case Some(n) => [Entry(line, n)]
    case None => []
  }

  /**
   * The lines the constructor stores, in input order, with their key
   * lengths: exactly the lines of the input that get a key length.
   */
  function Stored(input: seq<string>, separator: string): (es: seq<Entry>)
    ensures |es| <= |input|
    ensures forall e :: e in es ==> e.line in input && KeyLength(e.line, separator) == Some(e.keyLen)
    ensures forall line :: line in input && KeyLength(line, separator).Some? ==>
      Entry(line, KeyLength(line, separator).value) in es
  {
    if input == [] then []
    else
      var init := input[..|input| - 1];
      var rest := Stored(init, separator);
      assert input == init + [input[|input| - 1]];
      rest + Filed(input[|input| - 1], separator)
  }

  /** A stored line: no newline in it, and filed under the key length it gets. */
  predicate Shaped(e: Entry, separator: string)
  {
    '\n' !in e.line && KeyLength(e.line, separator) == Some(e.keyLen)
  }

  /** The string of key length `L`, or the empty string when there is none. */
  function BucketText(lines: map<nat, string>, L: nat): string
  {
    if L in lines then lines[L] else []
  }

  /**
   * Every string holds the lines of its key length, each followed by a
   * newline; every stored line is shaped and has a string; no string is
   * empty.
   */
  ghost predicate Shelved(lines: map<nat, string>, es: seq<Entry>, separator: string)
  {
    (forall L {:trigger lines[L]} :: L in lines ==> lines[L] == Joined(Lines(Bucket(es, L))) && Bucket(es, L) != [])
    && (forall e :: e in es ==> Shaped(e, separator) && e.keyLen in lines)
  }

  /** The stored lines after `n + 1` input lines, from those after `n`. */
  lemma StoredStep(input: seq<string>, separator: string, n: nat)
    requires n < |input|
    ensures Stored(input[..n + 1], separator) == Stored(input[..n], separator) + Filed(input[n], separator)
  {
    assert input[..n + 1][..n] == input[..n];
  }

  /** The string of one key length after one more entry is stored. */
  lemma ShelfStep(text: string, es: seq<Entry>, e: Entry, L: nat)
    requires text == Joined(Lines(Bucket(es, L)))
    ensures e.keyLen == L ==> text + e.line + "\n" == Joined(Lines(Bucket(es + [e], L))) && Bucket(es + [e], L) != []
    ensures e.keyLen != L ==> text == Joined(Lines(Bucket(es + [e], L)))
  {
    BucketSnoc(es, e, L);
    if L == e.keyLen {
      var b := Bucket(es, L);
      assert Lines(b + [e]) == Lines(b) + [e.line];
      JoinedSnoc(Lines(b), e.line);
    } else {
      assert Bucket(es + [e], L) == Bucket(es, L);
    }
  }

  /** Appending a shaped line and a newline to its string keeps the strings shelved. */
  lemma ShelveStep(lines: map<nat, string>, es: seq<Entry>, separator: string, e: Entry)
    requires Shelved(lines, es, separator) && Shaped(e, separator)
    ensures Shelved(lines[e.keyLen := BucketText(lines, e.keyLen) + e.line + "\n"], es + [e], separator)
  {
    var lines' := lines[e.keyLen := BucketText(lines, e.keyLen) + e.line + "\n"];
    forall L | L in lines'
      ensures lines'[L] == Joined(Lines(Bucket(es + [e], L))) && Bucket(es + [e], L) != []
    {
      if L in lines {
        ShelfStep(lines[L], es, e, L);
      } else {
        BucketEmpty(es, L);
        ShelfStep("", es, e, L);
      }
    }
  }

  /**
   * The loop over the input file's lines: each line that gets a key length
   * is appended, with a newline, to the string of that length.
   */
  method ShelveLines(input: seq<string>, separator: string) returns (lines: map<nat, string>, ghost es: seq<Entry>)
    requires forall n :: 0 <= n < |input| ==> '\n' !in input[n]
    ensures es == Stored(input, separator)
    ensures Shelved(lines, es, separator)
  {
    lines := map[];
    es := [];
    var n := 0;
    while n < |input|
      invariant n <= |input|
      invariant es == Stored(input[..n], separator)
      invariant Shelved(lines, es, separator)
    {
      var line := input[n];
      StoredStep(input, separator, n);
      var key := KeyLength(line, separator);
      if key.Some? {
        var prefix_length := key.value;
        assert '\n' !in line && Filed(line, separator) == [Entry(line, prefix_length)];
        ShelveStep(lines, es, separator, Entry(line, prefix_length));
        lines := lines[prefix_length := BucketText(lines, prefix_length) + line + "\n"];
        es := es + [Entry(line, prefix_length)];
      } else {
        assert Filed(line, separator) == [];
      }
      n := n + 1;
    }
    assert input[..n] == input;
  }

  /**
   * How a scan finds the key of a line holding no newline: its first `p`
   * characters, ending at the first character of a one-character separator,
   * or the whole line without a separator.
   */
  predicate LineKeyed(line: string, separator: string, p: nat)
  {
    '\n' !in line && p <= |line|
    && (separator == [] ==> p == |line|)
    && (separator != [] ==> p < |line| && line[p] == separator[0] && forall i :: 0 <= i < p ==> line[i] != separator[0])
  }

  /** A stored line's key, under a separator of at most one character, is found by the scan. */
  lemma KeyedLine(e: Entry, separator: string)
    requires Shaped(e, separator) && |separator| <= 1
    ensures LineKeyed(e.line, separator, e.keyLen)
  {
    if separator != [] {
      assert separator == [separator[0]];
    }
  }

  /**
   * Where the searches of `CutLine` stop on line `k` of a joined bucket:
   * the key search at the end of the key, the newline search after it at
   * the end of the line.
   */
  lemma CutPoints(text: string, start: nat, ls: seq<string>, k: nat, separator: string, p: nat)
    requires text == Joined(ls) && k < |ls| && start == |Joined(ls[..k])|
    requires |separator| <= 1 && LineKeyed(ls[k], separator, p)
    ensures separator != [] ==> FindFrom(text, separator, start) == Some(start + p)
    ensures separator == [] ==> p == |ls[k]| && FindFrom(text, "\n", start) == Some(start + p)
    ensures FindFrom(text, "\n", start + p) == Some(start + |ls[k]|)
    ensures start + |ls[k]| < |text| && |Joined(ls[..k + 1])| == start + |ls[k]| + 1
    ensures text[start..start + p] == ls[k][..p] && text[start..start + |ls[k]|] == ls[k]
  {
    JoinedAt(ls, k);
    CutPiece(text, start, ls[k], separator, p);
  }

  /** Where the searches stop on a line lying in `text` at `start`, followed by a newline. */
  lemma CutPiece(text: string, start: nat, line: string, separator: string, p: nat)
    requires start + |line| < |text| && text[start..start + |line|] == line && text[start + |line|] == '\n'
    requires |separator| <= 1 && LineKeyed(line, separator, p)
    ensures separator != [] ==> FindFrom(text, separator, start) == Some(start + p)
    ensures separator == [] ==> FindFrom(text, "\n", start) == Some(start + p)
    ensures FindFrom(text, "\n", start + p) == Some(start + |line|)
    ensures text[start..start + p] == line[..p]
  {
    NewlineAfter(text, line, start, p);
    if separator != [] {
      FindInPiece(text, line, start, separator, p);
    } else {
      NewlineAfter(text, line, start, 0);
    }
    SlicePrefix(text, start, line, p);
  }

  /**
   * Cutting line `k` out of a bucket's string, starting at `start_of_line`:
   * the first search stops at the separator, or at the newline without
   * one, which ends the key; with a separator, a second search finds the
   * newline that ends the line. Neither search fails on a stored line.
   */
  method CutLine(text: string, separated: bool, separator: string, start_of_line: nat,
                 ghost ls: seq<string>, ghost k: nat, ghost p: nat) returns (current_line: string, end_of_line: nat)
    requires text == Joined(ls) && k < |ls| && start_of_line == |Joined(ls[..k])|
    requires separated == (separator != []) && |separator| <= 1 && LineKeyed(ls[k], separator, p)
    ensures current_line == ls[k][..p]
    ensures end_of_line == start_of_line + |ls[k]| < |text| && text[start_of_line..end_of_line] == ls[k]
    ensures end_of_line + 1 == |Joined(ls[..k + 1])|
  {
    CutPoints(text, start_of_line, ls, k, separator, p);
    if separated {
      var found := FindFrom(text, separator, start_of_line);
      end_of_line := found.value;
      current_line := text[start_of_line..end_of_line];
      var eol := FindFrom(text, "\n", end_of_line);
      end_of_line := eol.value;
    } else {
      var found := FindFrom(text, "\n", start_of_line);
      end_of_line := found.value;
      current_line := text[start_of_line..end_of_line];
    }
  }

  /** Pairs of key lengths `n - t` and `n + t`, for `t` from 1 to `i`, in that order. */
  function Around(n: nat, i: nat): (Ls: seq<nat>)
    requires i <= n
    ensures |Ls| == 2 * i
  {
    if i == 0 then [] else Around(n, i - 1) + [n - i, n + i]
  }

  /** A key at most `d` characters longer or shorter than the pattern stays within the mbleven table. */
  lemma RowFits(pattern: string, key: string, d: nat)
    requires 1 <= d <= 3 && |pattern| <= |key| + d && |key| <= |pattern| + d
    ensures CppMatchers.MATRIX_ROW_INDEX[d - 1] + CppMatchers.Gap(pattern, key) <= 8
  {
  }

  /** Collecting the matches of one more launched scan. */
  lemma GatherStep(es: seq<Entry>, pattern: string, d: nat, Ls: seq<nat>, k: nat,
                   before: seq<string>, found: seq<string>)
    requires k < |Ls| && before == Gather(es, pattern, d, Ls[..k])
    requires found == Hits(Bucket(es, Ls[k]), pattern, d)
    ensures before + found == Gather(es, pattern, d, Ls[..k + 1])
  {
    assert Ls[..k + 1] == Ls[..k] + [Ls[k]];
    GatherSnocLength(es, pattern, d, Ls[..k], Ls[k]);
  }

  /** The key lengths a lookup scans, in the order it concatenates their matches. */
  function Queried(n: nat, d: nat): seq<nat>
    requires d <= n
  {
    Around(n, d) + [n]
  }

  /**
   * The pairs up to `i` hold each key length within `i` of `n`, other than
   * `n` itself, exactly once.
   */
  lemma {:induction false} AroundSpan(n: nat, i: nat)
    requires i <= n
    ensures NoDup(Around(n, i))
    ensures forall L :: L in Around(n, i) ==> n - i <= L <= n + i && L != n
    ensures forall L :: n - i <= L <= n + i && L != n ==> L in Around(n, i)
  {
    if i > 0 {
      var init := Around(n, i - 1);
      AroundSpan(n, i - 1);
      assert Around(n, i) == init + [n - i] + [n + i];
      NoDupSnoc(init, n - i);
      NoDupSnoc(init + [n - i], n + i);
    }
  }

  /** A lookup scans every key length within `d` of `n` exactly once. */
  lemma QueriedSpan(n: nat, d: nat)
    requires d <= n
    ensures NoDup(Queried(n, d))
    ensures forall L :: n - d <= L <= n + d ==> L in Queried(n, d)
  {
    AroundSpan(n, d);
    NoDupSnoc(Around(n, d), n);
  }

  /** Every launched scan is for a key length within `d` of `n`. */
  lemma QueriedAt(n: nat, d: nat, k: nat)
    requires d <= n && k < |Queried(n, d)|
    ensures n - d <= Queried(n, d)[k] <= n + d
  {
    AroundSpan(n, d);
    assert Queried(n, d)[k] in Queried(n, d);
  }

  /**
   * The order in which the scans are launched: for `i` from 1 up to `d`,
   * the key lengths `n - i` and `n + i`, then `n` itself.
   */
  method Launches(n: nat, d: nat) returns (launched: seq<nat>)
    requires d <= n
    ensures launched == Queried(n, d)
  {
    launched := [];
    var i := 1;
    while i <= d
      invariant 1 <= i <= d + 1
      invariant launched == Around(n, i - 1)
    {
      launched := launched + [n - i, n + i];
      i := i + 1;
    }
    launched := launched + [n];
  }

  /** Every match lies in one of the launched buckets, which are all different. */
  lemma QueriedFindsAll(es: seq<Entry>, pattern: string, d: nat)
    requires d <= |pattern| && forall e :: e in es ==> e.keyLen <= |e.line|
    ensures multiset(Gather(es, pattern, d, Queried(|pattern|, d))) == multiset(Hits(es, pattern, d))
  {
    QueriedSpan(|pattern|, d);
    forall e | e in es && IsHit(e, pattern, d)
      ensures e.keyLen in Queried(|pattern|, d)
    {
      HitLength(e, pattern, d);
    }
    GatherFindsAllHits(es, pattern, d, Queried(|pattern|, d));
  }

  /** A stored key never runs past its line. */
  lemma ShelvedKeys(lines: map<nat, string>, es: seq<Entry>, separator: string)
    requires Shelved(lines, es, separator)
    ensures forall e :: e in es ==> e.keyLen <= |e.line|
  {
    forall e | e in es
      ensures e.keyLen <= |e.line|
    {
      assert Shaped(e, separator);
    }
  }

  /** Every stored key length from `lo` to `hi` is below `cap`. */
  predicate ShortLengths(lines: map<nat, string>, lo: int, hi: int, cap: nat)
  {
    forall L :: L in lines && lo <= L <= hi ==> L < cap
  }

  class Searcher {
    var separator: string
    var separated: bool
    var lines: map<nat, string>
    /** The stored lines with their key lengths, in input order. */
    ghost var Entries: seq<Entry>

    ghost predicate Valid()
      reads this
    {
      separated == (separator != []) && Shelved(lines, Entries, separator)
    }

    /**
     * Builds the strings from the lines of the input file, which hold no
     * newline: every line with a key length is stored, in input order.
     */
    constructor (input: seq<string>, separator: string)
      requires forall n :: 0 <= n < |input| ==> '\n' !in input[n]
      ensures Valid()
      ensures this.separator == separator
      ensures Entries == Stored(input, separator)
    {
      this.separator := separator;
      separated := separator != [];
      var stored;
      ghost var es;
      stored, es := ShelveLines(input, separator);
      lines := stored;
      Entries := es;
    }

    /**
     * The scan of the string of key length `lines_index`: every stored line
     * of that key length whose key is within `max_distance` edits of
     * `pattern`, in input order. The key is cut out up to the separator,
     * or up to the newline without one, and the line is returned without
     * its newline.
     */
    method IterateDistances(pattern: string, max_distance: nat, lines_index: nat) returns (results: seq<string>)
      requires Valid() && |separator| <= 1
      requires |pattern| < 256 && lines_index < 256
      requires max_distance > 3 && lines_index in lines ==> lines_index < |CppMatchers.ARR_INIT|
      requires max_distance <= 3 ==>
        1 <= max_distance && |pattern| <= lines_index + max_distance && lines_index <= |pattern| + max_distance
      ensures results == Hits(Bucket(Entries, lines_index), pattern, max_distance)
    {
      var text := BucketText(lines, lines_index);
      ghost var bucket := Bucket(Entries, lines_index);
      ghost var ls := Lines(bucket);
      if lines_index !in lines {
        BucketEmpty(Entries, lines_index);
      }
      BucketMembers(Entries, lines_index);
      results := [];
      var start_of_line := 0;
      var end_of_line := 0;
      ghost var k := 0;
      while start_of_line < |text|
        invariant k <= |bucket| && end_of_line == start_of_line == |Joined(ls[..k])|
        invariant results == Hits(bucket[..k], pattern, max_distance)
      {
        JoinedPrefixShorter(ls, k);
        assert bucket[k] in bucket && ls[k] == bucket[k].line;
        KeyedLine(bucket[k], separator);
        var current_line;
        current_line, end_of_line := CutLine(text, separated, separator, start_of_line, ls, k, bucket[k].keyLen);
        var matched;
        if max_distance > 3 {
          assert lines_index in lines && |current_line| == lines_index;
          matched := CppMatchers.BoundedWagnerFischer(pattern, current_line, max_distance);
        } else {
          assert |current_line| == lines_index;
          RowFits(pattern, current_line, max_distance);
          matched := CppMatchers.Mbleven(pattern, current_line, max_distance);
        }
        assert Key(bucket[k]) == current_line;
        assert matched <==> IsHit(bucket[k], pattern, max_distance);
        var line := if separated then text[start_of_line..end_of_line] else current_line;
        assert line == bucket[k].line;
        ghost var before := results;
        if matched {
          results := results + [line];
        }
        HitsStep(bucket, k, pattern, max_distance, before, matched, results);
        end_of_line := end_of_line + 1;
        start_of_line := end_of_line;
        k := k + 1;
      }
      JoinedPrefixShorter(ls, k);
      assert bucket[..k] == bucket;
    }

    /**
     * Every stored line whose key is within `max_distance` edits of
     * `pattern`. The scans are launched for the key lengths `|pattern| - i`
     * and `|pattern| + i`, for `i` from 1 up, then for `|pattern|`, and
     * their matches are collected in launch order.
     */
    method Lookup(pattern: string, max_distance: nat) returns (results: seq<string>)
      requires Valid() && |separator| <= 1
      requires 1 <= max_distance <= |pattern| && |pattern| + max_distance < 256
      requires max_distance > 3 ==>
        ShortLengths(lines, |pattern| - max_distance, |pattern| + max_distance, |CppMatchers.ARR_INIT|)
      ensures results == Gather(Entries, pattern, max_distance, Queried(|pattern|, max_distance))
      ensures multiset(results) == multiset(Hits(Entries, pattern, max_distance))
    {
      var launched := Launches(|pattern|, max_distance);
      results := [];
      var k := 0;
      while k < |launched|
        invariant k <= |launched| && Valid()
        invariant results == Gather(Entries, pattern, max_distance, launched[..k])
      {
        QueriedAt(|pattern|, max_distance, k);
        var found := IterateDistances(pattern, max_distance, launched[k]);
        GatherStep(Entries, pattern, max_distance, launched, k, results, found);
        results := results + found;
        k := k + 1;
      }
      assert launched[..k] == launched;
      ShelvedKeys(lines, Entries, separator);
      QueriedFindsAll(Entries, pattern, max_distance);
    }
  }
}

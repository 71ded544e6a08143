/**
 * String searching and joining used by both index builders: the first
 * occurrence of a separator (a substring search, as `memmem` and
 * `std::string::find` do), the first character out of a set (as
 * `std::string::find_first_of` does), and concatenation of stored lines.
 * Characters stand for bytes here.
 */
module Text {

  datatype Option<T> = None | Some(value: T)

  /** `pat` occurs in `s` at index `i`. */
  predicate OccursAt(s: string, pat: string, i: nat)
  {
    i + |pat| <= |s| && s[i..i + |pat|] == pat
  }

  /** The first occurrence of `pat` in `s` at or after `from`, if any. */
  function FindFrom(s: string, pat: string, from: nat): (r: Option<nat>)
    ensures r.Some? ==> from <= r.value && OccursAt(s, pat, r.value)
    ensures r.Some? ==> forall i :: from <= i < r.value ==> !OccursAt(s, pat, i)
    ensures r.None? ==> forall i :: from <= i ==> !OccursAt(s, pat, i)
    decreases |s| - from
  {
    if from + |pat| > |s| then None
    else if s[from..from + |pat|] == pat then Some(from)
    else FindFrom(s, pat, from + 1)
  }

  /** The first index of `s` holding a character of `chars`, if any. */
  function FindFirstOf(s: string, chars: string): (r: Option<nat>)
    ensures r.Some? ==> r.value < |s| && s[r.value] in chars
    ensures r.Some? ==> forall i :: 0 <= i < r.value ==> s[i] !in chars
    ensures r.None? ==> forall i :: 0 <= i < |s| ==> s[i] !in chars
  {
    if |s| == 0 then None
    else if s[0] in chars then Some(0)
    else match FindFirstOf(s[1..], chars)
      case None => None
      case Some(i) => Some(i + 1)
  }

  /** The lines of `ls` written one after the other. */
  function Concat(ls: seq<string>): string
  {
    if ls == [] then [] else Concat(ls[..|ls| - 1]) + ls[|ls| - 1]
  }

  /** The lines of `ls`, each followed by a newline. */
  function Joined(ls: seq<string>): string
  {
    if ls == [] then [] else Joined(ls[..|ls| - 1]) + ls[|ls| - 1] + "\n"
  }

  /** Line `i` of `ls` sits in `Concat(ls)` right after the lines before it. */
  lemma {:induction false} ConcatAt(ls: seq<string>, i: nat)
    requires i < |ls|
    ensures |Concat(ls[..i])| + |ls[i]| <= |Concat(ls)|
    ensures Concat(ls)[|Concat(ls[..i])|..|Concat(ls[..i])| + |ls[i]|] == ls[i]
    ensures i + 1 == |ls| ==> |Concat(ls[..i])| + |ls[i]| == |Concat(ls)|
    decreases |ls|
  {
    var n := |ls| - 1;
    assert ls[..n + 1] == ls;
    if i < n {
      ConcatAt(ls[..n], i);
      assert ls[..n][..i] == ls[..i];
      assert ls[..n][i] == ls[i];
      var p := |Concat(ls[..i])|;
      assert Concat(ls) == Concat(ls[..n]) + ls[n];
      assert Concat(ls)[p..p + |ls[i]|] == Concat(ls[..n])[p..p + |ls[i]|];
    } else {
      assert Concat(ls) == Concat(ls[..i]) + ls[i];
    }
  }

  /** The lines before `i + 1` are the lines before `i` and line `i`. */
  lemma ConcatPrefix(ls: seq<string>, i: nat)
    requires i < |ls|
    ensures |Concat(ls[..i + 1])| == |Concat(ls[..i])| + |ls[i]|
  {
    assert ls[..i + 1][..i] == ls[..i];
  }

  /**
   * In `Joined(ls)`, line `i` starts right after the lines before it and is
   * followed by a newline.
   */
  lemma {:induction false} JoinedAt(ls: seq<string>, i: nat)
    requires i < |ls|
    ensures |Joined(ls[..i])| + |ls[i]| < |Joined(ls)|
    ensures Joined(ls)[|Joined(ls[..i])|..|Joined(ls[..i])| + |ls[i]|] == ls[i]
    ensures Joined(ls)[|Joined(ls[..i])| + |ls[i]|] == '\n'
    ensures |Joined(ls[..i + 1])| == |Joined(ls[..i])| + |ls[i]| + 1
    decreases |ls|
  {
    var n := |ls| - 1;
    assert ls[..n + 1] == ls;
    assert ls[..i + 1][..i] == ls[..i];
    if i < n {
      JoinedAt(ls[..n], i);
      assert ls[..n][..i] == ls[..i];
      assert ls[..n][..i + 1] == ls[..i + 1];
      assert ls[..n][i] == ls[i];
      var p := |Joined(ls[..i])|;
      assert Joined(ls) == Joined(ls[..n]) + ls[n] + "\n";
      assert Joined(ls)[p..p + |ls[i]|] == Joined(ls[..n])[p..p + |ls[i]|];
      assert Joined(ls)[p + |ls[i]|] == Joined(ls[..n])[p + |ls[i]|];
    } else {
      assert Joined(ls) == Joined(ls[..i]) + ls[i] + "\n";
    }
  }

  /**
   * A one-character pattern is found at the first position at or after
   * `from` that holds its character.
   */
  lemma FindOneAt(s: string, pat: string, from: nat, x: nat)
    requires |pat| == 1 && from <= x < |s| && s[x] == pat[0]
    requires forall k :: from <= k < x ==> s[k] != pat[0]
    ensures FindFrom(s, pat, from) == Some(x)
  {
    assert s[x..x + 1] == pat;
    assert OccursAt(s, pat, x);
    forall k | from <= k < x
      ensures !OccursAt(s, pat, k)
    {
      assert s[k..k + 1][0] == s[k];
    }
  }

  /** One more line adds itself and a newline. */
  lemma JoinedSnoc(ls: seq<string>, line: string)
    ensures Joined(ls + [line]) == Joined(ls) + line + "\n"
  {
    assert (ls + [line])[..|ls|] == ls;
  }

  /** Some of the lines, joined, are shorter than all of them joined. */
  lemma JoinedPrefixShorter(ls: seq<string>, k: nat)
    requires k <= |ls|
    ensures k < |ls| <==> |Joined(ls[..k])| < |Joined(ls)|
  {
    if k < |ls| {
      JoinedAt(ls, k);
    } else {
      assert ls[..k] == ls;
    }
  }

  /** The characters of `piece`, found in `s` at `start`, one by one. */
  lemma PieceChars(s: string, piece: string, start: nat)
    requires start + |piece| <= |s| && s[start..start + |piece|] == piece
    ensures forall q :: start <= q < start + |piece| ==> s[q] == piece[q - start]
  {
    forall q | start <= q < start + |piece|
      ensures s[q] == piece[q - start]
    {
      assert s[start..start + |piece|][q - start] == s[q];
    }
  }

  /**
   * A newline search from anywhere in a piece holding no newline, followed
   * in `s` by a newline, stops at the end of the piece.
   */
  lemma NewlineAfter(s: string, piece: string, start: nat, from: nat)
    requires start + |piece| < |s| && s[start..start + |piece|] == piece && s[start + |piece|] == '\n'
    requires '\n' !in piece && from <= |piece|
    ensures FindFrom(s, "\n", start + from) == Some(start + |piece|)
  {
    PieceChars(s, piece, start);
    FindOneAt(s, "\n", start + from, start + |piece|);
  }

  /** The first `p` characters of a piece lying in `s` at `start`. */
  lemma SlicePrefix(s: string, start: nat, piece: string, p: nat)
    requires start + |piece| <= |s| && s[start..start + |piece|] == piece && p <= |piece|
    ensures s[start..start + p] == piece[..p]
  {
    assert s[start..start + p] == s[start..start + |piece|][..p];
  }

  /**
   * A one-character pattern is found where `piece`, lying in `s` at
   * `start`, first holds its character.
   */
  lemma FindInPiece(s: string, piece: string, start: nat, pat: string, p: nat)
    requires start + |piece| <= |s| && s[start..start + |piece|] == piece
    requires |pat| == 1 && p < |piece| && piece[p] == pat[0]
    requires forall i :: 0 <= i < p ==> piece[i] != pat[0]
    ensures FindFrom(s, pat, start) == Some(start + p)
  {
    PieceChars(s, piece, start);
    FindOneAt(s, pat, start, start + p);
  }
}

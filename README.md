# fastzy, modelled in Dafny

fastzy is a fuzzy line matcher. It reads a file once and files every line
in a bucket keyed by the length of the line's key: the text before a
separator, or the whole line. A query for a pattern and a distance bound
`d` scans only the buckets whose key length is within `d` of the
pattern's length. It returns every stored line whose key is within
Levenshtein distance `d` of the pattern. Two deciders answer
"is `Lev(a, b) <= d`?". For `d <= 3` the matcher is mbleven: it tries
each edit script of a small precomputed table. For larger bounds it is a
Wagner-Fischer programme on one rolling row.

The repository holds two versions of the same design, and both are
modelled here:

- `src/lib.rs`, the Rust searcher. Each bucket is one concatenated string
  plus the offset of each line. The mbleven scripts are packed two bits per
  operation in `MBLEVEN_MATRIX`.
- `src/fastzy.cpp`, the C++ searcher. Each bucket is a string of
  newline-terminated lines, cut apart again at query time. The scripts are
  spelled with the letters `r`, `d`, `i` in a flat 9 by 7 table.

The specification is a recursive `Lev` (module `Levenshtein`, `lev.dfy`).
Module `EditScripts` (`scripts.dfy`) defines what both script tables must
contain: every script of exactly `d` operations whose deletions minus
insertions equal the length difference. It proves that walking the strings
under such scripts decides `Lev <= d`. Module `Buckets` (`buckets.dfy`)
defines what a query must return, `Hits`. It proves that scanning a set of
buckets that covers every possible key length, each bucket once, returns
exactly those lines as a multiset. Module `Text` (`text.dfy`) models
`find`, `find_first_of` and concatenated line buffers. The Rust code is
modelled in `rust_mbleven.dfy` and `rust_searcher.dfy`, the C++ code in
`cpp_matchers.dfy` and `cpp_searcher.dfy`.

Both searchers are classes whose constructor fills the buckets. The
deciders are methods with the source's loops, and the Wagner-Fischer row is
an `array` updated in place. Every method is proved against `Lev`,
against `Hits`, or against a reference definition that a lemma ties to
them. Strings are sequences of characters, and a character stands
for a byte: every length is taken to be both a byte count and a character
count (ASCII).

## Model

| member | source | states |
|---|---|---|
| Levenshtein.Min3 | src/fastzy.cpp:244 | the minimum of three distances is one of them and no larger than any |
| Levenshtein.LevSymmetric | src/lib.rs:251-254 | the distance does not depend on argument order, so swapping the longer string to the front keeps every verdict |
| Levenshtein.LevLengthGap | src/lib.rs:256-259 | the distance is at least the difference of the lengths, so a length difference above the bound rules a pair out |
| Levenshtein.LevZero | src/lib.rs:244-246 | distance zero holds exactly when the strings are equal, the answer both Rust deciders give for bound zero |
| Levenshtein.LevSnocSame | src/lib.rs:341-343 | equal last characters cost nothing: the cell takes its diagonal neighbour |
| Levenshtein.LevSnocDiff | src/lib.rs:339-340 | different last characters cost one more than the least of the three neighbouring distances |
| Levenshtein.PrefixDistanceIsLev | src/lib.rs:332-347 | the table the Wagner-Fischer recurrence fills holds the distance of every pair of prefixes |
| Levenshtein.CellStep | src/fastzy.cpp:241-248 | writing one cell by the recurrence extends the filled part of the row by that cell |
| Levenshtein.WriteCell | src/fastzy.cpp:241-248 | the in-place write of one cell of the rolling row keeps the row invariant one cell further |
| EditScripts.ScriptShape | src/lib.rs:25-50 | a script for bound `d` and length difference `k` has `d` operations and deletions minus insertions equal to `k` |
| EditScripts.ScriptExists | src/lib.rs:25-50 | for every length difference within the bound there is a script |
| EditScripts.CostSound | src/lib.rs:188-226 | the differences the walk counts under any script, when no more than the script length plus one, bound the distance from above |
| EditScripts.CostComplete | src/lib.rs:25-50 | when the distance is within `d`, some script of `d` operations for the length difference makes the walk count no more than `d` |
| EditScripts.ScriptsDecide | src/lib.rs:180-231 | some script of the row passes exactly when the distance is within the bound |
| Text.FindFrom | src/fastzy.cpp:119-121 | the search returns the first occurrence at or after the start, or none when there is none |
| Text.FindFirstOf | src/fastzy.cpp:42 | the search returns the first position holding one of the given characters, or none |
| Text.ConcatAt | src/lib.rs:90-91 | a line appended to a bucket string sits right after the lines before it |
| Text.JoinedAt | src/fastzy.cpp:32 | in a newline-joined bucket string, each line sits after the lines before it and is followed by a newline |
| Text.JoinedSnoc | src/fastzy.cpp:46 | appending a line and a newline to a bucket string joins one more line |
| Buckets.BucketSnoc | src/lib.rs:88-92 | storing a line adds it to the end of its own bucket and to no other |
| Buckets.HitsSnoc | src/lib.rs:137-144 | a stored line is reported exactly when its key is within the bound |
| Buckets.HitsStep | src/fastzy.cpp:135-146 | pushing a line exactly when it matches extends the results of a bucket scan by one line |
| Buckets.HitLength | src/lib.rs:113-114 | a line whose key is within `d` of the pattern has a key length within `d` of the pattern's length |
| Buckets.BucketMembers | src/lib.rs:117 | every line of a bucket is stored and has that bucket's key length |
| Buckets.GatherSnoc | src/lib.rs:88-92 | storing one more line adds to a scan of distinct buckets exactly that line's own result |
| Buckets.GatherFindsAllHits | src/lib.rs:116-164 | scanning distinct key lengths that include every matching line's key length returns exactly the matching lines, as a multiset |
| Buckets.Range | src/lib.rs:116 | the half-open range of key lengths has one entry per length |
| Buckets.RangeAt | src/lib.rs:116 | the range lists the key lengths in increasing order |
| Buckets.GatherRange | src/lib.rs:116-164 | scanning one more key length appends that bucket's matching lines |
| Buckets.RangeHas | src/lib.rs:116 | every length in the range is scanned |
| RustMbleven.OpBits | src/lib.rs:199-204 | an operation's two bits say which strings it advances: bit one the first, bit two the second |
| RustMbleven.CodeForDecodes | src/lib.rs:180-206 | a table code read two bits at a time until zero is a script of the row's bound and length difference, and packs back to the same code |
| RustMbleven.MatrixRowsAreCodes | src/lib.rs:25-50 | every code of the row for bound `d` and length difference `k` packs `d` operations whose deletions minus insertions equal `k` |
| RustMbleven.ThreeEditsEqualLengths | src/lib.rs:45 | each code of the row for bound three and equal lengths packs a valid script |
| RustMbleven.ThreeEditsOneApart | src/lib.rs:46 | each code of the row for bound three and length difference one packs a valid script |
| RustMbleven.MatrixHasEveryScript | src/lib.rs:25-50 | every script of `d` operations for the length difference is in the row: the table is complete |
| RustMbleven.CodeCostEncode | src/lib.rs:188-226 | the walk of a packed code counts the same differences as the walk of its script |
| RustMbleven.MatrixRowDecides | src/lib.rs:180-231 | some code of the row passes exactly when the distance is within the bound |
| RustMbleven.MatrixRowFinds | src/lib.rs:25-50 | when the distance is within the bound, a code of the row passes |
| RustMbleven.MatrixCodeSound | src/lib.rs:180-231 | a code of the row that passes proves the distance within the bound |
| RustMbleven.FastMbleven | src/lib.rs:171-234 | the verdict is true exactly when some code passes; on a row of the table for the longer-first pair it is exactly `Lev <= d` |
| RustMbleven.Mbleven | src/lib.rs:236-316 | the verdict is exactly `Lev <= d`, for either argument order and for bound zero |
| RustMbleven.WagnerFischer | src/lib.rs:318-350 | the verdict is exactly `Lev <= d`: for bound zero on any strings, for other bounds when the second string is shorter than the initial row |
| RustMbleven.FillRow | src/lib.rs:332-346 | one outer step turns the row of distances from the first `i` characters into the row for the first `i + 1` |
| RustSearcher.PrefixLen | src/lib.rs:77-83 | the key length is the whole line without a separator or where it does not occur, else the position of its first occurrence |
| RustSearcher.MaxPrefix | src/lib.rs:85-87 | the longest key length bounds every line's key length |
| RustSearcher.MaxPrefixAttained | src/lib.rs:85-87 | the longest key length is the key length of one of the lines read |
| RustSearcher.Prefixes | src/lib.rs:88 | every line's key length has a bucket, even a line that is not stored |
| RustSearcher.ReadLine | src/lib.rs:75-96 | reading one more line stores it only when it is valid UTF-8, raises the longest key length to its own and adds its bucket |
| RustSearcher.StoresSnoc | src/lib.rs:90-91 | appending a line to a bucket records its offset as the bucket's old length |
| RustSearcher.StoreEntry | src/lib.rs:88-92 | after filing a line, every bucket still holds exactly its stored lines with their offsets |
| RustSearcher.SummaryStep | src/lib.rs:75-96 | the loop over the file's lines keeps the stored lines, the longest key length and the bucket keys in step with the lines read |
| RustSearcher.FiledStep | src/lib.rs:85-92 | filing one line keeps every bucket consistent with the stored lines, and every key within the longest |
| RustSearcher.StoredLine | src/lib.rs:121-127 | the key-length slice at a line's offset is its key, and the slice to the next offset, or to the end, is the whole line |
| RustSearcher.OffsetsAscend | src/lib.rs:90-91 | the offsets recorded in a bucket never decrease |
| RustSearcher.FromLenAsWritten | src/lib.rs:113 | the shortest scanned length as written: a bound above the pattern's length wraps around the machine word |
| RustSearcher.FromLenAsWrittenMissesMatches | src/lib.rs:113-116 | with the wrap-around, an empty pattern at bound one scans nothing although a one-character line matches |
| RustSearcher.FromLen | src/lib.rs:113 | the shortest scanned length is the pattern's length less the bound, or zero: every length that can match is scanned |
| RustSearcher.Matches | src/lib.rs:118-152 | the decider chosen for a bucket, with the longer string first, answers exactly `Lev <= d` |
| RustSearcher.ReadLines | src/lib.rs:75-96 | the buckets hold exactly the valid lines, by key length, with their offsets; every line read has a bucket; the longest key length is the largest key length of any line read |
| RustSearcher.VisitLine | src/lib.rs:119-159 | one offset of a bucket pushes its whole line exactly when the line's key matches |
| RustSearcher.ScanBucket | src/lib.rs:117-162 | scanning a bucket returns its matching lines, in order |
| RustSearcher.ScanLength | src/lib.rs:116-163 | one key length of the search returns the matching lines of that length, and nothing for a length without a bucket |
| RustSearcher.RangeFindsAll | src/lib.rs:113-116 | the scanned lengths cover every key length a matching line can have |
| RustSearcher.Searcher.constructor | src/lib.rs:60-104 | the searcher holds exactly the valid lines, by key length, and the longest key length |
| RustSearcher.Searcher.Search | src/lib.rs:106-169 | the results are exactly the stored lines whose key is within the bound, as a multiset |
| CppMatchers.Unspell | src/fastzy.cpp:194-208 | a spelled script has one operation per letter |
| CppMatchers.UnspellSpell | src/fastzy.cpp:155-165 | reading back a spelled script gives the script |
| CppMatchers.SpelledForIsScript | src/fastzy.cpp:155-165 | a spelling with `d` letters and as many more `d` than `i` as the length difference is a script for that row |
| CppMatchers.BlockOf | src/fastzy.cpp:166 | every row lies in the block of one bound from one to three, no further than the bound from the block's first row |
| CppMatchers.Row0Holds | src/fastzy.cpp:156 | row 0 holds one script for bound one, equal lengths, then nulls |
| CppMatchers.Row1Holds | src/fastzy.cpp:157 | row 1 holds one script for bound one, difference one, then nulls |
| CppMatchers.Row2Holds | src/fastzy.cpp:158 | row 2 holds three scripts for bound two, equal lengths, then nulls |
| CppMatchers.Row3Holds | src/fastzy.cpp:159 | row 3 holds two scripts for bound two, difference one, then nulls |
| CppMatchers.Row4Holds | src/fastzy.cpp:160 | row 4 holds one script for bound two, difference two, then nulls |
| CppMatchers.Row5Holds | src/fastzy.cpp:161 | row 5 holds seven scripts for bound three, equal lengths |
| CppMatchers.Row6Holds | src/fastzy.cpp:162 | row 6 holds six scripts for bound three, difference one, then a null |
| CppMatchers.Row7Holds | src/fastzy.cpp:163 | row 7 holds three scripts for bound three, difference two, then nulls |
| CppMatchers.Row8Holds | src/fastzy.cpp:164 | row 8 holds one script for bound three, difference three, then nulls |
| CppMatchers.TableRow | src/fastzy.cpp:155-166 | every row starts with its scripts, each of exactly the bound's number of letters over `r`, `d`, `i` for its length difference, and the first null ends them |
| CppMatchers.Row0Complete | src/fastzy.cpp:156 | row 0 lists every script for bound one, equal lengths |
| CppMatchers.Row1Complete | src/fastzy.cpp:157 | row 1 lists every script for bound one, difference one |
| CppMatchers.Row2Complete | src/fastzy.cpp:158 | row 2 lists every script for bound two, equal lengths |
| CppMatchers.Row3Complete | src/fastzy.cpp:159 | row 3 lists every script for bound two, difference one |
| CppMatchers.Row4Complete | src/fastzy.cpp:160 | row 4 lists every script for bound two, difference two |
| CppMatchers.Row5Complete | src/fastzy.cpp:161 | row 5 lists every script for bound three, equal lengths |
| CppMatchers.Row6Complete | src/fastzy.cpp:162 | row 6 lists every script for bound three, difference one |
| CppMatchers.Row7Complete | src/fastzy.cpp:163 | row 7 lists every script for bound three, difference two |
| CppMatchers.Row8Complete | src/fastzy.cpp:164 | row 8 lists every script for bound three, difference three |
| CppMatchers.TableComplete | src/fastzy.cpp:155-166 | the row the matcher picks for a bound and a length difference lists every script for them |
| CppMatchers.WalkStep | src/fastzy.cpp:192-214 | one step of the walk: equal characters advance both, a letter advances as it says and counts one, an exhausted script ends the count above the bound |
| CppMatchers.TableEntryFits | src/fastzy.cpp:192-194 | a script in the bound's block has at least the bound's number of letters, so the walk never reads past its end before the count exceeds the bound |
| CppMatchers.TableEntryIsScript | src/fastzy.cpp:155-166 | each non-null entry spells a script for its row's bound and length difference |
| CppMatchers.TableRowFits | src/fastzy.cpp:182-194 | every script of a row in the bound's block can be read by the walk |
| CppMatchers.TableEntrySound | src/fastzy.cpp:188-218 | a script of the table that passes proves the distance within the bound |
| CppMatchers.TableColumn | src/fastzy.cpp:182-186 | every script for the row is found before the first null |
| CppMatchers.TableRowComplete | src/fastzy.cpp:181-219 | when the distance is within the bound, a script before the first null of the picked row passes |
| CppMatchers.Mbleven | src/fastzy.cpp:167-222 | the verdict is exactly `Lev <= d`, for either argument order |
| CppMatchers.TryScripts | src/fastzy.cpp:182-221 | the verdict is true exactly when some script before the first null passes |
| CppMatchers.Walk | src/fastzy.cpp:188-214 | the final test on the walk's counters passes exactly when the script's cost is within the bound |
| CppMatchers.BoundedWagnerFischer | src/fastzy.cpp:225-253 | the verdict is exactly `Lev <= d` when the second string is shorter than the initial row |
| CppMatchers.NextRow | src/fastzy.cpp:236-250 | one outer step turns the row of distances from the first `i - 1` characters into the row for the first `i` |
| CppSearcher.KeyLength | src/fastzy.cpp:25-47 | an empty line is dropped; without a separator the key is the whole line; with one it ends at the first separator character, and a line without one or starting with one is dropped |
| CppSearcher.Stored | src/fastzy.cpp:24-48 | every stored line is an input line with its key length, every input line that gets a key length is stored, and there are no more entries than input lines |
| CppSearcher.StoredStep | src/fastzy.cpp:27-47 | reading one more line adds exactly what that line files |
| CppSearcher.ShelfStep | src/fastzy.cpp:32 | appending a line and a newline to its bucket string keeps it the join of that bucket's lines, and leaves the other buckets alone |
| CppSearcher.ShelveStep | src/fastzy.cpp:46 | filing a line keeps every bucket string the newline join of its lines |
| CppSearcher.ShelveLines | src/fastzy.cpp:24-48 | after the loop every bucket string is the newline join of the stored lines of its key length |
| CppSearcher.KeyedLine | src/fastzy.cpp:42-46 | a stored line's key ends at the separator character, or at the end of the line without a separator |
| CppSearcher.CutPoints | src/fastzy.cpp:117-133 | from a line's start, the separator search finds the key's end and the newline search finds the line's end |
| CppSearcher.CutPiece | src/fastzy.cpp:119-132 | the two searches at a line's start stop at its key's end and at its newline |
| CppSearcher.CutLine | src/fastzy.cpp:117-133 | cutting at a line's start gives its key, its end, and the start of the next line |
| CppSearcher.Around | src/fastzy.cpp:58-77 | the launch loop queries two lengths per step |
| CppSearcher.RowFits | src/fastzy.cpp:181 | for a key length within the bound, the row the matcher picks lies inside the table |
| CppSearcher.GatherStep | src/fastzy.cpp:88-91 | appending each launched scan's result in launch order collects the scanned buckets' matching lines |
| CppSearcher.AroundSpan | src/fastzy.cpp:58-77 | the launch loop queries each length within the bound of the pattern's length once, except the pattern's own |
| CppSearcher.QueriedSpan | src/fastzy.cpp:58-86 | the queried lengths are distinct and include every length within the bound of the pattern's length |
| CppSearcher.QueriedAt | src/fastzy.cpp:58-86 | every queried length is within the bound of the pattern's length |
| CppSearcher.Launches | src/fastzy.cpp:58-86 | the launches query, in order, the pattern's length less and plus each step, then the pattern's length |
| CppSearcher.QueriedFindsAll | src/fastzy.cpp:51-94 | the queried buckets hold every matching line, each once |
| CppSearcher.ShelvedKeys | src/fastzy.cpp:42-46 | every stored key lies within its line |
| CppSearcher.Searcher.constructor | src/fastzy.cpp:13-49 | the searcher stores exactly the lines that get a key length, each bucket string the newline join of its lines |
| CppSearcher.Searcher.IterateDistances | src/fastzy.cpp:96-153 | the scan returns, in order and without newlines, the lines of the bucket whose key is within the bound |
| CppSearcher.Searcher.Lookup | src/fastzy.cpp:51-94 | the results are the queried buckets' matches in launch order, and exactly the stored lines whose key is within the bound, as a multiset |

## Left out

- File reading is not modelled. The constructors take the file's lines as a sequence; each Rust line carries a flag saying whether it is valid UTF-8. Failing to open the file, the Python bindings and the module registration are left out.
- Characters stand for bytes. The UTF-8 validation, character counting, byte-level separator search and unchecked byte slicing in `src/lib.rs` are modelled on ASCII text, where all lengths agree.
- The parallel scans are modelled as sequential loops. In Rust the results are pushed under a mutex in no fixed order, so `Search` states its result as a multiset. In C++ the futures are collected in launch order, so `Lookup` states the order too.
- The `uint8_t` lengths in `src/fastzy.cpp` are unbounded integers here. The bounds they need are preconditions of the C++ members below.
- The `u32` offsets in `src/lib.rs` are not modelled as 32-bit: offsets are unbounded here, so the truncation of an offset once a bucket's text passes 2^32 bytes is not captured.
- RustMbleven.Mbleven: requires a bound of at most three or a length difference above the bound. Otherwise the source indexes past the end of its table and panics.
- RustMbleven.WagnerFischer: for bounds above zero, requires the second string to be shorter than the 100-entry initial row. Otherwise the source indexes past its array and panics. Bound zero returns before the array is used and takes strings of any length.
- RustSearcher.Searcher.Search: requires, for bounds above three, that every bucket in the scanned span whose key length is 100 or more holds no line. For a line in such a bucket the source indexes past its 100-entry initial row and panics; a bucket left empty (its lines were not valid UTF-8) is scanned without harm. It uses the corrected shortest length `FromLen` (see Findings).
- CppMatchers.Mbleven: requires a bound from one to three, strings shorter than 256 and a picked row inside the table. Outside these the source reads outside its arrays or wraps its 8-bit counters.
- CppMatchers.BoundedWagnerFischer: requires the second string to be shorter than the 100-entry initial row. Otherwise the source writes past its array.
- CppSearcher.Searcher.constructor: requires input lines without a newline, which is what line-by-line reading yields.
- CppSearcher.Searcher.IterateDistances: requires, for bounds above three, a key length below 100 when a bucket of that length exists. For a line of that length the source writes past its 100-entry initial row; a missing bucket is read as empty and scanned without harm.
- CppSearcher.Searcher.Lookup: requires, for bounds above three, that no bucket exists for a key length from the pattern's length less the bound to the pattern's length plus the bound that is 100 or more, for the same reason. Buckets exist only for stored lines, so this is the condition that no stored line in the queried span has such a key.
- CppSearcher.Searcher.IterateDistances: requires a separator of at most one character. The constructor cuts keys at the first character of any in the separator, while the scan searches for the whole separator; the two agree only for one character.
- CppSearcher.Searcher.IterateDistances: a bucket that does not exist is read as empty. The source's `operator[]` also inserts the empty bucket into the map, a change with no visible effect that is not modelled.
- CppSearcher.Searcher.IterateDistances: the early exit when no separator or newline is found is never taken for a well-formed bucket string, which the model proves, so the model has no such branch.
- CppSearcher.Searcher.Lookup: requires a bound from one to the pattern's length, and the pattern's length plus the bound below 256. A bound of zero makes the matcher read before its row index. A larger bound makes the 8-bit length arithmetic wrap. A bound of 255 also makes the source's launch loop run forever, since its 8-bit counter wraps from 255 to 0 before it can exceed the bound; the precondition excludes that input, so the model does not capture the endless loop.
- The C++ constructor drops lines that lack the separator, while the Rust constructor keys them by the whole line. Both behaviours are modelled as written.
- Helpers `CppMatchers.TryScripts`, `CppMatchers.Walk`, `CppMatchers.NextRow`, `Levenshtein.WriteCell`, `RustMbleven.FillRow`, `RustSearcher.VisitLine`, `RustSearcher.ScanBucket`, `RustSearcher.ScanLength`, `CppSearcher.CutLine` and `CppSearcher.Launches` are loop bodies or loops of the source turned into methods of their own. They have no counterpart function in the source.

## Findings

| source | as written | input that shows it | evidently intended | confidence | as-written member | corrected member |
|---|---|---|---|---|---|---|
| src/lib.rs:113 | `max(pattern_len - max_distance, 0)` subtracts unsigned words, so for a bound above the pattern's length the value wraps (in a release build; a debug build panics) to near the word's maximum and the `max` with zero does nothing | empty pattern, bound 1, a stored line `b`: the range of scanned lengths is empty, yet `b` is within distance 1 | the pattern's length less the bound, floored at zero | not executed | RustSearcher.FromLenAsWrittenMissesMatches | RustSearcher.FromLen |

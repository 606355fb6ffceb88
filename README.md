# Realtime column filtering and selection-only scanning

This project models two pieces of Pinot's single-segment query path in Dafny and proves properties of them.

- **The realtime column data source** (`RealtimeColumnDataSource`) turns a filter predicate into the set of matching document ids. The predicate kinds are EQ, IN, NEQ, NOT_IN, RANGE and REGEX. It looks values up in the column's mutable dictionary and ORs together the inverted-index sets of the ids that qualify. It hands out the column's block once and only once.
- **The selection-only operator** (`MSelectionOnlyOperator`) drains its projection operator block by block. It walks each block's doc-id iterator and appends one row per document to its row list while the list is below the selection's size. It packs the rows, the schema and the scanned count into an intermediate results block. If any `Exception` is thrown, it returns a block carrying one query-execution error instead.

Module layout:

- `wrappers.dfy` (module `Wrappers`): `Option` and `Result`.
- `java_lang.dfy` (module `JavaLang`): the Java exceptions the data source can throw, and Java's `String.split(",")` and `trim` as far as the RANGE and IN branches depend on them.
- `realtime_column_data_source.dfy` (module `RealtimeDataSource`):
  - the class `RealtimeColumnDataSource`, whose fields `currentPredicate`, `filteredDocIdBitmap` and `blockReturned` change in place;
  - the function `Evaluate`, which says what `setPredicate` does for each predicate kind;
  - one loop method per branch, each proved against that function.
- `mselection_only_operator.dfy` (module `SelectionOnly`):
  - the class `MSelectionOnlyOperator`, whose fields are the row list `rowEvents` and the `blocks` array;
  - small classes for its projection operator and the doc-id iterator;
  - the functions `ScanDocs` and `Drain`, which specify the nested loops of `nextBlock`;
  - an independent reference, `Visits`/`Take`/`Collect`: all documents the child offers, in order, cut at the room left below the limit.

How the collaborators are modelled:

- The dictionary is a value holding four arbitrary functions: `length`, `indexOf`, `getString` and `inRange`.
- The inverted index is a function from dictionary id to a set of document ids.
- A roaring bitmap is a mathematical set, and `or` is set union.
- A Java `null` string is `None`.
- The projection operator is the sequence of answers its `nextBlock()` still has to give. Each answer is a block or an exception, and an empty sequence means it returns null.
- Building a row is a function of the plan that either yields a row or throws an exception with a message.

The model follows the code, including these quirks:

- `numDocsScanned` is incremented once per appended row (MSelectionOnlyOperator.java lines 92-94). It is not incremented for every doc id the iterator hands out. `DrainCountsAppendedRows` proves this.
- NOT_IN's computed union is never assigned to the filter, so it has no effect (lines 135-151). `NotInLeavesFilterUnchanged` proves this.
- RANGE passes a bound to `inRange` only when that bound is `*`. Any other bound is replaced by the empty string (lines 153-177).

## Model

Source paths are relative to the repository root.

| member | source | states |
|---|---|---|
| JavaLang.SplitAll | pinot-core/src/main/java/com/linkedin/pinot/core/realtime/impl/datasource/RealtimeColumnDataSource.java:116 | the pieces between commas contain no comma and joined with commas give back the string (round trip) |
| JavaLang.Split | pinot-core/src/main/java/com/linkedin/pinot/core/realtime/impl/datasource/RealtimeColumnDataSource.java:114-116 | Java's `split(",")`: a prefix of all pieces, only empty pieces dropped at the end, a comma-free string splits into itself, no piece holds a comma |
| JavaLang.SplitTwoPieces | pinot-core/src/main/java/com/linkedin/pinot/core/realtime/impl/datasource/RealtimeColumnDataSource.java:168-169 | `a,b` with comma-free `a`, `b` and non-empty `b` splits into exactly `[a, b]` |
| JavaLang.TrimStart | pinot-core/src/main/java/com/linkedin/pinot/core/realtime/impl/datasource/RealtimeColumnDataSource.java:160 | drops exactly the leading characters up to U+0020: the result is a suffix of the string, everything cut off is trimmable and the result does not start with a trimmable character |
| JavaLang.TrimEnd | pinot-core/src/main/java/com/linkedin/pinot/core/realtime/impl/datasource/RealtimeColumnDataSource.java:164 | drops exactly the trailing characters up to U+0020: the result is a prefix of the string, everything cut off is trimmable and the result does not end with a trimmable character |
| JavaLang.Trim | pinot-core/src/main/java/com/linkedin/pinot/core/realtime/impl/datasource/RealtimeColumnDataSource.java:160-164 | the result is a slice of the string with only trimmable characters before and after it, its own first and last characters are not trimmable, and it is empty iff every character is trimmable (both directions) |
| JavaLang.TrimKeepsVisibleEnds | pinot-core/src/main/java/com/linkedin/pinot/core/realtime/impl/datasource/RealtimeColumnDataSource.java:160-164 | a string whose ends are above U+0020 is its own trim |
| RealtimeDataSource.FirstValue | pinot-core/src/main/java/com/linkedin/pinot/core/realtime/impl/datasource/RealtimeColumnDataSource.java:109 | `getRhs().get(0)` succeeds iff the list is non-empty, with its first element (null included), and otherwise fails with an index-out-of-bounds error |
| RealtimeDataSource.FirstString | pinot-core/src/main/java/com/linkedin/pinot/core/realtime/impl/datasource/RealtimeColumnDataSource.java:114 | the first element used as a string: succeeds with `v` iff the first element exists and is `v`; an empty list is an index-out-of-bounds error and a null element a null-pointer error |
| RealtimeDataSource.Evaluate | pinot-core/src/main/java/com/linkedin/pinot/core/realtime/impl/datasource/RealtimeColumnDataSource.java:107-196 | `setPredicate` throws iff the predicate is REGEX, the list is empty, the first element of IN, NOT_IN or RANGE is null, or the RANGE string does not parse; the exception is unsupported-operation for REGEX, index-out-of-bounds for an empty list or a bad range, and null-pointer for a null element; the filter is kept exactly for a NOT_IN with a non-null element |
| RealtimeDataSource.SplitOfRangeShape | pinot-core/src/main/java/com/linkedin/pinot/core/realtime/impl/datasource/RealtimeColumnDataSource.java:168-169 | a string `lower,upper` followed by nothing or by a comma and more, with non-empty comma-free `lower` and `upper`, splits into at least two pieces, the first `lower` and the second `upper` |
| RealtimeDataSource.ParseRangeSucceedsIffShaped | pinot-core/src/main/java/com/linkedin/pinot/core/realtime/impl/datasource/RealtimeColumnDataSource.java:168-169 | RANGE parsing succeeds iff the string is `lower,upper` followed by nothing or by a comma and more, with non-empty comma-free `lower` and `upper` (both directions); otherwise it fails with an index-out-of-bounds error |
| RealtimeDataSource.ParseRangeOfShape | pinot-core/src/main/java/com/linkedin/pinot/core/realtime/impl/datasource/RealtimeColumnDataSource.java:157-177 | on such a string the bounds come from `lower` and `upper`: `rangeStart` is `getString(0)` when `lower` minus its first character is `*` and `""` otherwise, `rangeEnd` is `getString(length-1)` when `upper` minus its last character is `*` and `""` otherwise, the lower bound is inclusive unless the trimmed string starts with `(`, and the upper unless it ends with `)` |
| RealtimeDataSource.OrTogether | pinot-core/src/main/java/com/linkedin/pinot/core/realtime/impl/datasource/RealtimeColumnDataSource.java:119-121 | ORing the sets of a list of ids one by one yields the union of the sets of the ids in the list |
| RealtimeDataSource.InBitmap | pinot-core/src/main/java/com/linkedin/pinot/core/realtime/impl/datasource/RealtimeColumnDataSource.java:113-122 | the id array filled from the pieces, then ORed, yields the union over the ids of the pieces |
| RealtimeDataSource.NeqBitmap | pinot-core/src/main/java/com/linkedin/pinot/core/realtime/impl/datasource/RealtimeColumnDataSource.java:125-133 | the loop over 1..length inclusive yields the union over those ids other than the excluded one |
| RealtimeDataSource.NotInBitmap | pinot-core/src/main/java/com/linkedin/pinot/core/realtime/impl/datasource/RealtimeColumnDataSource.java:136-149 | the collected exclusion list, then the loop over 0..length-1, yields the union over the unlisted ids |
| RealtimeDataSource.CollectInRange | pinot-core/src/main/java/com/linkedin/pinot/core/realtime/impl/datasource/RealtimeColumnDataSource.java:179-185 | the collector holds exactly the ids below `length` that `inRange` accepts, in strictly increasing order |
| RealtimeDataSource.RangeBitmap | pinot-core/src/main/java/com/linkedin/pinot/core/realtime/impl/datasource/RealtimeColumnDataSource.java:179-190 | the RANGE bitmap is the union over the accepted ids |
| RealtimeDataSource.EqSelectsIndexSetOfValue | pinot-core/src/main/java/com/linkedin/pinot/core/realtime/impl/datasource/RealtimeColumnDataSource.java:108-111 | EQ replaces the filter with exactly the inverted-index set of `indexOf(rhs[0])`, null included |
| RealtimeDataSource.InIsUnionOverPieces | pinot-core/src/main/java/com/linkedin/pinot/core/realtime/impl/datasource/RealtimeColumnDataSource.java:112-123 | IN selects a document iff it is in the set of the id of some comma-separated piece of `rhs[0]` (both directions) |
| RealtimeDataSource.InOfTwoValuesIsUnionOfEq | pinot-core/src/main/java/com/linkedin/pinot/core/realtime/impl/datasource/RealtimeColumnDataSource.java:108-123 | for comma-free `a` and `b` with `b` non-empty, `IN a,b` selects exactly the union of what `EQ a` and `EQ b` select |
| RealtimeDataSource.NeqScansOneThroughLength | pinot-core/src/main/java/com/linkedin/pinot/core/realtime/impl/datasource/RealtimeColumnDataSource.java:124-134 | NEQ selects a document iff some id in 1..length inclusive, other than the excluded id (0 for a null value), has it in its set (both directions) |
| RealtimeDataSource.NeqNeverSelectsIdZeroAlone | pinot-core/src/main/java/com/linkedin/pinot/core/realtime/impl/datasource/RealtimeColumnDataSource.java:128-132 | a document found only in id 0's set is never selected by NEQ |
| RealtimeDataSource.NeqSelectsIdLength | pinot-core/src/main/java/com/linkedin/pinot/core/realtime/impl/datasource/RealtimeColumnDataSource.java:128-132 | for a non-empty dictionary, NEQ does select every document of id `length()` unless that id is the excluded one |
| RealtimeDataSource.NeqWithEqCoversScannedIds | pinot-core/src/main/java/com/linkedin/pinot/core/realtime/impl/datasource/RealtimeColumnDataSource.java:108-134 | `NEQ v` together with `EQ v` selects exactly the documents of ids 1..length plus `v`'s own id |
| RealtimeDataSource.NotInLeavesFilterUnchanged | pinot-core/src/main/java/com/linkedin/pinot/core/realtime/impl/datasource/RealtimeColumnDataSource.java:135-151 | NOT_IN with a non-null value succeeds and keeps the previous filter |
| RealtimeDataSource.RegexIsRejected | pinot-core/src/main/java/com/linkedin/pinot/core/realtime/impl/datasource/RealtimeColumnDataSource.java:194-195 | REGEX always fails with an unsupported-operation error carrying "regex filter not supported" |
| RealtimeDataSource.RangeOfBracketedBounds | pinot-core/src/main/java/com/linkedin/pinot/core/realtime/impl/datasource/RealtimeColumnDataSource.java:153-177 | for `open lo,hi close`, inclusiveness follows the brackets and a bound is looked up only when it is `*` |
| RealtimeDataSource.RangeSelectsAcceptedIds | pinot-core/src/main/java/com/linkedin/pinot/core/realtime/impl/datasource/RealtimeColumnDataSource.java:152-193 | a parsable RANGE selects a document iff some id below `length` that `inRange` accepts for the parsed bounds has it in its set (both directions) |
| RealtimeDataSource.RangeIgnoresLiteralBounds | pinot-core/src/main/java/com/linkedin/pinot/core/realtime/impl/datasource/RealtimeColumnDataSource.java:152-193 | `(lo,hi]` with literal bounds filters with two empty bounds, lower exclusive and upper inclusive |
| RealtimeDataSource.RangeOfWildcards | pinot-core/src/main/java/com/linkedin/pinot/core/realtime/impl/datasource/RealtimeColumnDataSource.java:152-193 | `[*,*]` filters from the dictionary's first value to its last, both inclusive |
| RealtimeDataSource.RealtimeColumnDataSource.constructor | pinot-core/src/main/java/com/linkedin/pinot/core/realtime/impl/datasource/RealtimeColumnDataSource.java:41-58 | a fresh data source has no predicate, no filter and has not handed out its block |
| RealtimeDataSource.RealtimeColumnDataSource.Open | pinot-core/src/main/java/com/linkedin/pinot/core/realtime/impl/datasource/RealtimeColumnDataSource.java:61-63 | always returns true |
| RealtimeDataSource.RealtimeColumnDataSource.GetBlock | pinot-core/src/main/java/com/linkedin/pinot/core/realtime/impl/datasource/RealtimeColumnDataSource.java:65-87 | the first call returns a block and sets the flag; every later call returns none; the block is single-valued iff the field is, and it is built over the current filter with the stored predicate applied iff there is one |
| RealtimeDataSource.RealtimeColumnDataSource.NextBlock | pinot-core/src/main/java/com/linkedin/pinot/core/realtime/impl/datasource/RealtimeColumnDataSource.java:89-92 | same single-shot contract as GetBlock |
| RealtimeDataSource.RealtimeColumnDataSource.NextBlockAt | pinot-core/src/main/java/com/linkedin/pinot/core/realtime/impl/datasource/RealtimeColumnDataSource.java:94-97 | ignores the block id: same single-shot contract as GetBlock |
| RealtimeDataSource.RealtimeColumnDataSource.Close | pinot-core/src/main/java/com/linkedin/pinot/core/realtime/impl/datasource/RealtimeColumnDataSource.java:99-102 | always returns true |
| RealtimeDataSource.RealtimeColumnDataSource.SetPredicate | pinot-core/src/main/java/com/linkedin/pinot/core/realtime/impl/datasource/RealtimeColumnDataSource.java:104-198 | stores the predicate first, whatever happens next; returns true iff `Evaluate` succeeds and otherwise the thrown exception; the filter becomes the computed bitmap for EQ, IN, NEQ and RANGE and stays as it was for NOT_IN and on every exception |
| SelectionOnly.GetBlock | pinot-core/src/main/java/com/linkedin/pinot/core/operator/query/MSelectionOnlyOperator.java:88 | `getBlock(column)` is the projected column's block, and null iff the column was not projected |
| SelectionOnly.ColumnsFor | pinot-core/src/main/java/com/linkedin/pinot/core/operator/query/MSelectionOnlyOperator.java:86-89 | one column block per schema column, in schema order, each that column's `getBlock` |
| SelectionOnly.ScanMatchesReference | pinot-core/src/main/java/com/linkedin/pinot/core/operator/query/MSelectionOnlyOperator.java:90-95 | one block's scan succeeds iff every document that fits below the limit yields a row; then it appends exactly those rows, in iterator order, and counts each once |
| SelectionOnly.ScanOnlyAppends | pinot-core/src/main/java/com/linkedin/pinot/core/operator/query/MSelectionOnlyOperator.java:92-94 | one block's scan keeps the old rows as a prefix, never passes the limit and changes nothing at the limit; it counts one per appended row, plus one for a row that threw, never more than the block's doc ids; without a throw it stops only when the ids run out or the limit is reached |
| SelectionOnly.DrainMatchesReference | pinot-core/src/main/java/com/linkedin/pinot/core/operator/query/MSelectionOnlyOperator.java:85-96 | the drain succeeds iff the child never throws and every document that fits yields a row; then the rows appended are exactly the rows of the first documents on offer, in block order and iterator order, as many as fit, and the count grows by their number |
| SelectionOnly.DrainOnlyAppends | pinot-core/src/main/java/com/linkedin/pinot/core/operator/query/MSelectionOnlyOperator.java:85-96 | existing rows are never removed or reordered; the child's answers are consumed from the front, all of them on success (it pulls until null, even past the limit) and at least one on failure |
| SelectionOnly.DrainRespectsLimit | pinot-core/src/main/java/com/linkedin/pinot/core/operator/query/MSelectionOnlyOperator.java:92 | starting at or below the limit, the row list never grows past it, failure or not |
| SelectionOnly.DrainCountsAppendedRows | pinot-core/src/main/java/com/linkedin/pinot/core/operator/query/MSelectionOnlyOperator.java:82-94 | on success the scanned count equals the number of rows this call appended |
| SelectionOnly.DrainAtLimit | pinot-core/src/main/java/com/linkedin/pinot/core/operator/query/MSelectionOnlyOperator.java:85-96 | at the limit nothing is appended or counted, and the drain still fails exactly when a later child answer throws |
| SelectionOnly.DrainColumnsAreLastPulled | pinot-core/src/main/java/com/linkedin/pinot/core/operator/query/MSelectionOnlyOperator.java:85-89 | the column blocks left behind are those of the last block among the answers the drain pulled, or the old ones if it pulled no block |
| SelectionOnly.DrainKeepsLastBlockColumns | pinot-core/src/main/java/com/linkedin/pinot/core/operator/query/MSelectionOnlyOperator.java:85-96 | after a successful drain of a child that never throws, the column blocks are those of its last block; after a failure, those of the block whose row threw, or of the last block before the answer that threw |
| SelectionOnly.SelectionFillsToLimit | pinot-core/src/main/java/com/linkedin/pinot/core/operator/query/MSelectionOnlyOperator.java:82-96 | with enough documents on offer, no exception and every row buildable, a fresh drain returns exactly `limitDocs` rows and counts as many |
| SelectionOnly.ProjectionOperator.NextBlock | pinot-core/src/main/java/com/linkedin/pinot/core/operator/query/MSelectionOnlyOperator.java:85 | pops the child's next answer: its block, its exception, or none once the answers are used up |
| SelectionOnly.BlockDocIdIterator.Next | pinot-core/src/main/java/com/linkedin/pinot/core/operator/query/MSelectionOnlyOperator.java:90-92 | hands out the block's doc ids in order, then EOF, consuming one id per call |
| SelectionOnly.MSelectionOnlyOperator.constructor | pinot-core/src/main/java/com/linkedin/pinot/core/operator/query/MSelectionOnlyOperator.java:59-69 | a fresh operator has no rows and one column-block slot per schema column, each null |
| SelectionOnly.MSelectionOnlyOperator.Open | pinot-core/src/main/java/com/linkedin/pinot/core/operator/query/MSelectionOnlyOperator.java:71-75 | opens the projection operator and returns true |
| SelectionOnly.MSelectionOnlyOperator.FillBlocks | pinot-core/src/main/java/com/linkedin/pinot/core/operator/query/MSelectionOnlyOperator.java:86-89 | the block array becomes the column blocks of the current projection block, in schema order |
| SelectionOnly.MSelectionOnlyOperator.ScanBlock | pinot-core/src/main/java/com/linkedin/pinot/core/operator/query/MSelectionOnlyOperator.java:90-95 | the row list, the scanned count and the failure become those of `ScanDocs` over the block's doc ids |
| SelectionOnly.MSelectionOnlyOperator.NextBlock | pinot-core/src/main/java/com/linkedin/pinot/core/operator/query/MSelectionOnlyOperator.java:77-123 | the row list, the column blocks and the child's remaining answers become those of `Drain` from the old state; on success the result carries the rows, the schema, the scanned count and the segment's total; on an exception it carries exactly one query-execution error with its message, no rows and no schema, a scanned count of 0 and the segment's total |
| SelectionOnly.MSelectionOnlyOperator.NextBlockAt | pinot-core/src/main/java/com/linkedin/pinot/core/operator/query/MSelectionOnlyOperator.java:125-128 | always fails with an unsupported-operation error |
| SelectionOnly.MSelectionOnlyOperator.Close | pinot-core/src/main/java/com/linkedin/pinot/core/operator/query/MSelectionOnlyOperator.java:130-134 | closes the projection operator and returns true |

## Left out

- Timing and logging: `System.currentTimeMillis`, `setTimeUsedMs` and log4j calls are not modelled.
- Integer widths: `int` ids and the `long` scanned count are unbounded integers; no overflow is modelled.
- The internals of the dictionary, the inverted index, the realtime block classes, `SelectionOperatorUtils` and the SerDe classes are not part of this model. They are arbitrary functions or opaque values. In particular, what `getString` does for an id out of range, such as `getString(-1)` on an empty dictionary, is whatever the function says; the model has no exception for it.
- The remaining constructor arguments of the data source (doc-id map, schema, offsets, SerDe objects) are not modelled; only what the block records is.
- How the operator derives its selection columns and data schema (`extractSelectionRelatedColumns`, `extractDataSchema`) is not modelled. The schema is a parameter, and the block array has one slot per schema column. The Java code sizes `_blocks` by the selection columns; an index-out-of-bounds from unequal lengths is not modelled.
- A null `Predicate` argument and a null right-hand-side list are not modelled. A column the projection block does not hold is a null slot in the block array, as `getBlock` returns null for it.
- The catch clause handles `Exception` only (MSelectionOnlyOperator.java line 107); a `java.lang.Error` escapes `nextBlock`. The model has no `Error` at all.
- `e.getMessage()` may be null in Java; the model always carries a message string.
- Exceptions from the doc-id iterator, from `getBlock` and from the casts are not modelled. The operator's failures come only from the child's `nextBlock()` and from building a row.
- SelectionOnly.BlockDocIdIterator.Next: the doc id the inner loop consumes before its size check fails is consumed from a local iterator that nothing else sees. The model performs the same call, but no contract states the extra consumption.
- SelectionOnly.MSelectionOnlyOperator.NextBlockAt: Java throws `UnsupportedOperationException` with a null message; the model carries an empty message.
- RealtimeDataSource.ParseRangeOfShape: strings are sequences of Unicode scalar values, while Java's `substring` and `length()` count UTF-16 code units. Next to a supplementary character (outside the Basic Multilingual Plane) the model cuts off the bracket at a different position than Java does: for `"\U{1F600}*,*]"` the model sees a `*` lower bound and looks up `getString(0)`, while Java's lower bound is a lone surrogate followed by `*`, so `rangeStart` stays empty. Whether parsing fails is the same in both encodings.
- Java `String.split` is modelled only for the one separator the code uses, `,`, which is not a regular-expression metacharacter.
- Roaring-bitmap representation: bitmaps are sets and `or` is union.

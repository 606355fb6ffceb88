/**
 * The column data source of a realtime segment: it turns a filter predicate
 * into a set of matching document ids, using the column's dictionary and its
 * inverted index, and hands out the column's block exactly once.
 */
module RealtimeDataSource {
  import opened Wrappers
  import opened JavaLang

  /** Surrogate id of a value in the column's dictionary. */
  type DictId = int
  /** Position of a row in the segment. */
  type DocId = nat
  /** The roaring bitmap of document ids, as a mathematical set. */
  type Bitmap = set<DocId>
  /** The realtime inverted index: the documents holding each dictionary id. */
  type InvertedIndex = DictId -> Bitmap

  /**
   * The read side of the column's mutable dictionary. Its implementation is not
   * part of this model: each operation is an arbitrary function. `indexOf`
   * receives `None` where the Java code passes `null`.
   */
  datatype Dictionary = Dictionary(
    length: nat,
    indexOf: Option<string> -> DictId,
    getString: DictId -> string,
    inRange: (string, string, DictId, bool, bool) -> bool)

  /** The part of the column's field spec that the data source consults. */
  datatype FieldSpec = FieldSpec(name: string, isSingleValueField: bool)

  datatype PredicateType = EQ | IN | NEQ | NOT_IN | RANGE | REGEX

  /** A filter predicate: its kind and its right-hand-side values (`None` is `null`). */
  datatype Predicate = Predicate(predicateType: PredicateType, rhs: seq<Option<string>>)

  datatype BlockId = BlockId(id: int)

  /**
   * The block a data source hands out. The block classes are not part of this
   * model; a block records the filter bitmap it was built over and the
   * predicate applied to it, if any.
   */
  datatype RealtimeBlock =
    | SingleValueBlock(columnName: string, filteredDocIdBitmap: Option<Bitmap>, appliedPredicate: Option<Predicate>)
    | MultiValueBlock(columnName: string, filteredDocIdBitmap: Option<Bitmap>, appliedPredicate: Option<Predicate>)

  /** The arguments a RANGE predicate passes to `inRange`. */
  datatype RangeBounds = RangeBounds(rangeStart: string, rangeEnd: string, incLower: bool, incUpper: bool)

  /** What applying a predicate does to the filter bitmap. */
  datatype FilterUpdate = Replace(bitmap: Bitmap) | Keep

  const RegexMessage: string := "regex filter not supported"

  /** The union of the inverted-index sets of `ids`. */
  function UnionOf(index: InvertedIndex, ids: set<DictId>): Bitmap {
    set i, d | i in ids && d in index(i) :: d
  }

  /** The ids of an IN list: one dictionary lookup per comma-separated piece. */
  function InIds(dictionary: Dictionary, pieces: seq<string>): set<DictId> {
    set k | 0 <= k < |pieces| :: dictionary.indexOf(Some(pieces[k]))
  }

  /** The ids from `lo` up to but not including `hi`. */
  function IdRange(lo: DictId, hi: DictId): (r: set<DictId>)
    ensures forall i :: i in r <==> lo <= i < hi
    decreases hi - lo
  {
    if hi <= lo then {} else IdRange(lo, hi - 1) + {hi - 1}
  }

  /** The ids a NEQ predicate scans: 1 up to and including the dictionary length, less the excluded one. */
  function NeqIds(length: nat, excluded: DictId): set<DictId> {
    IdRange(1, length + 1) - {excluded}
  }

  /** The ids a NOT_IN predicate scans: 0 up to the dictionary length, less those of the list. */
  function NotInScanIds(dictionary: Dictionary, pieces: seq<string>): set<DictId> {
    set i | 0 <= i < dictionary.length && i !in InIds(dictionary, pieces)
  }

  /** The ids below the dictionary length that `inRange` accepts for `bounds`. */
  function RangeIds(dictionary: Dictionary, bounds: RangeBounds): set<DictId> {
    set i | 0 <= i < dictionary.length &&
            dictionary.inRange(bounds.rangeStart, bounds.rangeEnd, i, bounds.incLower, bounds.incUpper)
  }

  /** The elements of a sequence of ids. */
  function IdsOf(ids: seq<DictId>): set<DictId> {
    set k | 0 <= k < |ids| :: ids[k]
  }

  /**
   * Parsing of a RANGE string such as `(a,b]`. The bracket characters are cut off
   * by position; only a `*` bound is looked up, any other bound is passed on as
   * the empty string.
   */
  function ParseRange(dictionary: Dictionary, rangeString: string): Result<RangeBounds, JavaException>
  {
    var pieces := Split(rangeString);
    if |pieces| == 0 || |pieces[0]| == 0 || |pieces| < 2 || |pieces[1]| == 0 then
      Failure(IndexOutOfBounds)
    else
      Success(BoundsOf(dictionary, Trim(rangeString), pieces[0], pieces[1]))
  }

  /**
   * The bounds read from the trimmed string and the first two pieces: the first
   * character of the lower piece and the last of the upper piece are the brackets.
   */
  function BoundsOf(dictionary: Dictionary, trimmed: string, first: string, second: string): RangeBounds
    requires first != "" && second != ""
  {
    var lower := first[1..];
    var upper := second[..|second| - 1];
    RangeBounds(
      if lower == "*" then dictionary.getString(0) else "",
      if upper == "*" then dictionary.getString(dictionary.length - 1) else "",
      !StartsWith(trimmed, '('),
      !EndsWith(trimmed, ')'))
  }

  /** `predicate.getRhs().get(0)`, which throws on an empty list. */
  function FirstValue(p: Predicate): (r: Result<Option<string>, JavaException>)
    ensures r.Success? <==> |p.rhs| > 0
    ensures r.Success? ==> r.value == p.rhs[0]
    ensures r.Failure? ==> r.error == IndexOutOfBounds
  {
    if |p.rhs| == 0 then Failure(IndexOutOfBounds) else Success(p.rhs[0])
  }

  /** `predicate.getRhs().get(0)` where the code then calls a method on it, so `null` throws. */
  function FirstString(p: Predicate): (r: Result<string, JavaException>)
    ensures forall v :: r == Success(v) <==> |p.rhs| > 0 && p.rhs[0] == Some(v)
    ensures r.Failure? ==> r.error == (if |p.rhs| == 0 then IndexOutOfBounds else NullPointer)
  {
    match FirstValue(p)
    case Failure(e) => Failure(e)
    case Success(None) => Failure(NullPointer)
    case Success(Some(s)) => Success(s)
  }

  /** The RANGE case once the range string is known. */
  function RangeFilter(dictionary: Dictionary, index: InvertedIndex, rangeString: string): Result<FilterUpdate, JavaException> {
    match ParseRange(dictionary, rangeString)
    case Failure(e) => Failure(e)
    case Success(bounds) => Success(Replace(UnionOf(index, RangeIds(dictionary, bounds))))
  }

  /**
   * What `setPredicate` does to the filter bitmap, or the exception it throws,
   * for each kind of predicate.
   */
  function Evaluate(dictionary: Dictionary, index: InvertedIndex, p: Predicate): (r: Result<FilterUpdate, JavaException>)
    ensures r.Failure? <==>
      || p.predicateType == REGEX
      || |p.rhs| == 0
      || (p.predicateType in {IN, NOT_IN, RANGE} && p.rhs[0].None?)
      || (p.predicateType == RANGE && ParseRange(dictionary, p.rhs[0].value).Failure?)
    ensures r.Failure? ==>
      r.error == (if p.predicateType == REGEX then UnsupportedOperation(RegexMessage)
                  else if |p.rhs| == 0 then IndexOutOfBounds
                  else if p.rhs[0].None? then NullPointer
                  else IndexOutOfBounds)
    ensures r == Success(Keep) <==> p.predicateType == NOT_IN && |p.rhs| > 0 && p.rhs[0].Some?
  {
    match p.predicateType
    case EQ =>
      (match FirstValue(p)
       case Failure(e) => Failure(e)
       case Success(v) => Success(Replace(index(dictionary.indexOf(v)))))
    case IN =>
      (match FirstString(p)
       case Failure(e) => Failure(e)
       case Success(s) => Success(Replace(UnionOf(index, InIds(dictionary, Split(s))))))
    case NEQ =>
      (match FirstValue(p)
       case Failure(e) => Failure(e)
       case Success(v) =>
         Success(Replace(UnionOf(index, NeqIds(dictionary.length, NeqExcluded(dictionary, v))))))
    case NOT_IN =>
      (match FirstString(p)
       case Failure(e) => Failure(e)
       case Success(_) => Success(Keep))
    case RANGE =>
      (match FirstString(p)
       case Failure(e) => Failure(e)
       case Success(s) => RangeFilter(dictionary, index, s))
    case REGEX => Failure(UnsupportedOperation(RegexMessage))
  }

  /** A document of one of the ids is in their union. */
  lemma InUnionOf(index: InvertedIndex, ids: set<DictId>, i: DictId, d: DocId)
    requires i in ids && d in index(i)
    ensures d in UnionOf(index, ids)
  {
  }

  /** Adding one id to a union adds exactly that id's set. */
  lemma UnionOfInsert(index: InvertedIndex, ids: set<DictId>, x: DictId)
    ensures UnionOf(index, ids + {x}) == UnionOf(index, ids) + index(x)
  {
    forall d | d in UnionOf(index, ids + {x})
      ensures d in UnionOf(index, ids) + index(x)
    {
      var i :| i in ids + {x} && d in index(i);
      if i != x {
        assert d in UnionOf(index, ids);
      }
    }
    forall d | d in UnionOf(index, ids) + index(x)
      ensures d in UnionOf(index, ids + {x})
    {
      if d in index(x) {
        assert x in ids + {x};
      } else {
        var i :| i in ids && d in index(i);
        assert i in ids + {x};
      }
    }
  }

  /** Appending an id to a sequence adds it to the sequence's elements. */
  lemma IdsOfAppend(ids: seq<DictId>, x: DictId)
    ensures IdsOf(ids + [x]) == IdsOf(ids) + {x}
  {
    forall y | y in IdsOf(ids) ensures y in IdsOf(ids + [x]) {
      var k :| 0 <= k < |ids| && ids[k] == y;
      assert (ids + [x])[k] == y;
    }
    assert (ids + [x])[|ids|] == x;
  }

  /** ORs together the inverted-index sets of `ids`, one after the other. */
  method OrTogether(index: InvertedIndex, ids: seq<DictId>) returns (bitmap: Bitmap)
    ensures bitmap == UnionOf(index, IdsOf(ids))
  {
    bitmap := {};
    var j := 0;
    while j < |ids|
      invariant 0 <= j <= |ids|
      invariant bitmap == UnionOf(index, IdsOf(ids[..j]))
    {
      assert ids[..j + 1] == ids[..j] + [ids[j]];
      IdsOfAppend(ids[..j], ids[j]);
      UnionOfInsert(index, IdsOf(ids[..j]), ids[j]);
      bitmap := bitmap + index(ids[j]);
      j := j + 1;
    }
    assert ids[..j] == ids;
  }

  /** The IN branch: looks every piece up into an id array, then ORs the ids' sets. */
  method InBitmap(dictionary: Dictionary, index: InvertedIndex, pieces: seq<string>) returns (bitmap: Bitmap)
    ensures bitmap == UnionOf(index, InIds(dictionary, pieces))
  {
    var dicIdsToOrTogether := new DictId[|pieces|];
    var counter := 0;
    while counter < |pieces|
      invariant 0 <= counter <= |pieces|
      invariant forall k :: 0 <= k < counter ==> dicIdsToOrTogether[k] == dictionary.indexOf(Some(pieces[k]))
    {
      dicIdsToOrTogether[counter] := dictionary.indexOf(Some(pieces[counter]));
      counter := counter + 1;
    }
    assert IdsOf(dicIdsToOrTogether[..]) == InIds(dictionary, pieces) by {
      assert forall k :: 0 <= k < |pieces| ==> dicIdsToOrTogether[..][k] == dictionary.indexOf(Some(pieces[k]));
    }
    bitmap := OrTogether(index, dicIdsToOrTogether[..]);
  }

  /** The NEQ branch: ORs the sets of ids 1 to the dictionary length inclusive, skipping `excluded`. */
  method NeqBitmap(dictionary: Dictionary, index: InvertedIndex, excluded: DictId) returns (bitmap: Bitmap)
    ensures bitmap == UnionOf(index, NeqIds(dictionary.length, excluded))
  {
    bitmap := {};
    var i := 1;
    while i <= dictionary.length
      invariant 1 <= i <= dictionary.length + 1
      invariant bitmap == UnionOf(index, IdRange(1, i) - {excluded})
    {
      ghost var before := IdRange(1, i) - {excluded};
      if excluded != i {
        assert IdRange(1, i + 1) - {excluded} == before + {i};
        UnionOfInsert(index, before, i);
        bitmap := bitmap + index(i);
      } else {
        assert IdRange(1, i + 1) - {excluded} == before;
      }
      i := i + 1;
    }
  }

  /**
   * The NOT_IN branch: collects the listed ids, then ORs the sets of the ids
   * from 0 below the dictionary length that are not listed.
   */
  method NotInBitmap(dictionary: Dictionary, index: InvertedIndex, notInValues: seq<string>) returns (notInHolder: Bitmap)
    ensures notInHolder == UnionOf(index, NotInScanIds(dictionary, notInValues))
  {
    var notInIds: seq<DictId> := [];
    var k := 0;
    while k < |notInValues|
      invariant 0 <= k <= |notInValues|
      invariant |notInIds| == k
      invariant forall j :: 0 <= j < k ==> notInIds[j] == dictionary.indexOf(Some(notInValues[j]))
    {
      notInIds := notInIds + [dictionary.indexOf(Some(notInValues[k]))];
      k := k + 1;
    }
    assert forall x :: x in notInIds <==> x in InIds(dictionary, notInValues) by {
      forall x | x in InIds(dictionary, notInValues) ensures x in notInIds {
        var j :| 0 <= j < |notInValues| && x == dictionary.indexOf(Some(notInValues[j]));
        assert notInIds[j] == x;
      }
    }
    notInHolder := {};
    var i := 0;
    while i < dictionary.length
      invariant 0 <= i <= dictionary.length
      invariant notInHolder == UnionOf(index, set j | 0 <= j < i && j !in notInIds)
    {
      ghost var before := set j | 0 <= j < i && j !in notInIds;
      if i !in notInIds {
        assert (set j | 0 <= j < i + 1 && j !in notInIds) == before + {i};
        UnionOfInsert(index, before, i);
        notInHolder := notInHolder + index(i);
      } else {
        assert (set j | 0 <= j < i + 1 && j !in notInIds) == before;
      }
      i := i + 1;
    }
    assert (set j | 0 <= j < i && j !in notInIds) == NotInScanIds(dictionary, notInValues);
  }

  /** The first RANGE loop: the ids below the dictionary length that `inRange` accepts, in increasing order. */
  method CollectInRange(dictionary: Dictionary, bounds: RangeBounds) returns (rangeCollector: seq<DictId>)
    ensures IdsOf(rangeCollector) == RangeIds(dictionary, bounds)
    ensures forall a, b :: 0 <= a < b < |rangeCollector| ==> rangeCollector[a] < rangeCollector[b]
  {
    rangeCollector := [];
    var i := 0;
    while i < dictionary.length
      invariant 0 <= i <= dictionary.length
      invariant IdsOf(rangeCollector) ==
        set j | 0 <= j < i && dictionary.inRange(bounds.rangeStart, bounds.rangeEnd, j, bounds.incLower, bounds.incUpper)
      invariant forall k :: 0 <= k < |rangeCollector| ==> rangeCollector[k] < i
      invariant forall a, b :: 0 <= a < b < |rangeCollector| ==> rangeCollector[a] < rangeCollector[b]
    {
      if dictionary.inRange(bounds.rangeStart, bounds.rangeEnd, i, bounds.incLower, bounds.incUpper) {
        IdsOfAppend(rangeCollector, i);
        rangeCollector := rangeCollector + [i];
      }
      i := i + 1;
    }
  }

  /** The RANGE branch after parsing: collects the qualifying ids, then ORs their sets. */
  method RangeBitmap(dictionary: Dictionary, index: InvertedIndex, bounds: RangeBounds) returns (rangeBitmap: Bitmap)
    ensures rangeBitmap == UnionOf(index, RangeIds(dictionary, bounds))
  {
    var rangeCollector := CollectInRange(dictionary, bounds);
    rangeBitmap := OrTogether(index, rangeCollector);
  }

  // Properties of predicate evaluation.

  /** EQ replaces the filter with exactly the inverted-index set of the value's id. */
  lemma EqSelectsIndexSetOfValue(dictionary: Dictionary, index: InvertedIndex, v: Option<string>, rest: seq<Option<string>>)
    ensures Evaluate(dictionary, index, Predicate(EQ, [v] + rest)) == Success(Replace(index(dictionary.indexOf(v))))
  {
  }

  /** IN selects a document iff it is in the set of some comma-separated piece of the first value. */
  lemma InIsUnionOverPieces(dictionary: Dictionary, index: InvertedIndex, s: string, rest: seq<Option<string>>)
    ensures var r := Evaluate(dictionary, index, Predicate(IN, [Some(s)] + rest));
      && r.Success? && r.value.Replace?
      && forall d :: d in r.value.bitmap <==>
           exists k :: 0 <= k < |Split(s)| && d in index(dictionary.indexOf(Some(Split(s)[k])))
  {
    var r := Evaluate(dictionary, index, Predicate(IN, [Some(s)] + rest));
    assert r == Success(Replace(UnionOf(index, InIds(dictionary, Split(s)))));
    forall d | d in r.value.bitmap
      ensures exists k :: 0 <= k < |Split(s)| && d in index(dictionary.indexOf(Some(Split(s)[k])))
    {
      var i :| i in InIds(dictionary, Split(s)) && d in index(i);
      var k :| 0 <= k < |Split(s)| && i == dictionary.indexOf(Some(Split(s)[k]));
    }
    forall d | exists k :: 0 <= k < |Split(s)| && d in index(dictionary.indexOf(Some(Split(s)[k])))
      ensures d in r.value.bitmap
    {
      var k :| 0 <= k < |Split(s)| && d in index(dictionary.indexOf(Some(Split(s)[k])));
      var i := dictionary.indexOf(Some(Split(s)[k]));
      assert i in InIds(dictionary, Split(s));
      InUnionOf(index, InIds(dictionary, Split(s)), i, d);
    }
  }

  /** `IN a,b` selects the documents of `EQ a` together with those of `EQ b`. */
  lemma InOfTwoValuesIsUnionOfEq(dictionary: Dictionary, index: InvertedIndex, a: string, b: string)
    requires ',' !in a && ',' !in b && b != ""
    ensures var inList := Evaluate(dictionary, index, Predicate(IN, [Some(a + [','] + b)]));
      var eqA := Evaluate(dictionary, index, Predicate(EQ, [Some(a)]));
      var eqB := Evaluate(dictionary, index, Predicate(EQ, [Some(b)]));
      && inList.Success? && inList.value.Replace?
      && eqA.Success? && eqA.value.Replace? && eqB.Success? && eqB.value.Replace?
      && inList.value.bitmap == eqA.value.bitmap + eqB.value.bitmap
  {
    SplitTwoPieces(a, b);
    var ids := InIds(dictionary, [a, b]);
    assert ids == {dictionary.indexOf(Some(a))} + {dictionary.indexOf(Some(b))} by {
      assert [a, b][0] == a && [a, b][1] == b;
    }
    UnionOfInsert(index, {dictionary.indexOf(Some(a))}, dictionary.indexOf(Some(b)));
    UnionOfInsert(index, {}, dictionary.indexOf(Some(a)));
    assert UnionOf(index, {}) == {};
  }

  /** The id a NEQ predicate skips: that of its first value, or 0 when the value is null. */
  function NeqExcluded(dictionary: Dictionary, v: Option<string>): DictId {
    if v.None? then 0 else dictionary.indexOf(v)
  }

  /**
   * NEQ selects a document iff it is in the set of some id from 1 to the
   * dictionary length inclusive other than the excluded id.
   */
  lemma NeqScansOneThroughLength(dictionary: Dictionary, index: InvertedIndex, v: Option<string>, rest: seq<Option<string>>)
    ensures var r := Evaluate(dictionary, index, Predicate(NEQ, [v] + rest));
      && r.Success? && r.value.Replace?
      && forall d :: d in r.value.bitmap <==>
           exists i :: 1 <= i <= dictionary.length && i != NeqExcluded(dictionary, v) && d in index(i)
  {
    var r := Evaluate(dictionary, index, Predicate(NEQ, [v] + rest));
    forall d | exists i :: 1 <= i <= dictionary.length && i != NeqExcluded(dictionary, v) && d in index(i)
      ensures d in r.value.bitmap
    {
      var i :| 1 <= i <= dictionary.length && i != NeqExcluded(dictionary, v) && d in index(i);
      assert i in NeqIds(dictionary.length, NeqExcluded(dictionary, v));
    }
    forall d | d in r.value.bitmap
      ensures exists i :: 1 <= i <= dictionary.length && i != NeqExcluded(dictionary, v) && d in index(i)
    {
      var i :| i in NeqIds(dictionary.length, NeqExcluded(dictionary, v)) && d in index(i);
    }
  }

  /** A document found only in the set of id 0 is never selected by NEQ. */
  lemma NeqNeverSelectsIdZeroAlone(dictionary: Dictionary, index: InvertedIndex, v: Option<string>, d: DocId)
    requires d in index(0)
    requires forall i :: 1 <= i <= dictionary.length ==> d !in index(i)
    ensures var r := Evaluate(dictionary, index, Predicate(NEQ, [v]));
      r.Success? && r.value.Replace? && d !in r.value.bitmap
  {
    NeqScansOneThroughLength(dictionary, index, v, []);
    assert [v] + [] == [v];
  }

  /** NEQ does select the documents of id `length()`, one past the last id of the dictionary. */
  lemma NeqSelectsIdLength(dictionary: Dictionary, index: InvertedIndex, v: Option<string>)
    requires dictionary.length >= 1 && NeqExcluded(dictionary, v) != dictionary.length
    ensures var r := Evaluate(dictionary, index, Predicate(NEQ, [v]));
      r.Success? && r.value.Replace? && index(dictionary.length) <= r.value.bitmap
  {
    var ids := NeqIds(dictionary.length, NeqExcluded(dictionary, v));
    assert dictionary.length in ids;
    forall d | d in index(dictionary.length) ensures d in UnionOf(index, ids) {
    }
  }

  /**
   * `NEQ v` together with `EQ v` selects the documents of ids 1 to the dictionary
   * length inclusive plus those of `v`'s own id, whatever that id is.
   */
  lemma NeqWithEqCoversScannedIds(dictionary: Dictionary, index: InvertedIndex, v: string)
    ensures var neq := Evaluate(dictionary, index, Predicate(NEQ, [Some(v)]));
      var eq := Evaluate(dictionary, index, Predicate(EQ, [Some(v)]));
      && neq.Success? && neq.value.Replace? && eq.Success? && eq.value.Replace?
      && neq.value.bitmap + eq.value.bitmap ==
         UnionOf(index, IdRange(1, dictionary.length + 1) + {dictionary.indexOf(Some(v))})
  {
    var x := dictionary.indexOf(Some(v));
    var scanned := IdRange(1, dictionary.length + 1);
    UnionOfInsert(index, scanned - {x}, x);
    assert (scanned - {x}) + {x} == scanned + {x};
  }

  /** NOT_IN with a non-null first value succeeds and leaves the filter as it was. */
  lemma NotInLeavesFilterUnchanged(dictionary: Dictionary, index: InvertedIndex, s: string, rest: seq<Option<string>>)
    ensures Evaluate(dictionary, index, Predicate(NOT_IN, [Some(s)] + rest)) == Success(Keep)
  {
  }

  /** REGEX always throws UnsupportedOperationException, whatever its values. */
  lemma RegexIsRejected(dictionary: Dictionary, index: InvertedIndex, rhs: seq<Option<string>>)
    ensures Evaluate(dictionary, index, Predicate(REGEX, rhs)) == Failure(UnsupportedOperation(RegexMessage))
  {
  }

  /**
   * The strings RANGE can parse: a non-empty, comma-free lower piece, a comma,
   * a non-empty, comma-free upper piece, and then nothing or a further comma.
   */
  predicate RangeShape(s: string, lower: string, upper: string, tail: string) {
    && s == lower + [','] + upper + tail
    && lower != "" && upper != ""
    && ',' !in lower && ',' !in upper
    && (tail == [] || tail[0] == ',')
  }

  /** A comma-free piece followed by nothing or a comma is the first piece. */
  lemma SplitAllOfPieceBeforeComma(piece: string, tail: string)
    requires ',' !in piece && (tail == [] || tail[0] == ',')
    ensures SplitAll(piece + tail)[0] == piece
  {
    var rest := SplitAll(tail);
    if tail != [] {
      assert rest == [""] + SplitAll(tail[1..]);
    }
    assert rest[0] == "";
    SplitAllCommaFreePrefix(piece, tail);
    assert piece + rest[0] == piece;
  }

  /** A string starting with a comma splits into an empty piece and the pieces after the comma. */
  lemma SplitAllAfterComma(x: string)
    requires |x| > 0 && x[0] == ','
    ensures SplitAll(x) == [""] + SplitAll(x[1..])
  {
  }

  /** The pieces of a range-shaped string, keeping empty ones, start with its two pieces. */
  lemma SplitAllOfRangeShape(s: string, lower: string, upper: string, tail: string)
    requires RangeShape(s, lower, upper, tail)
    ensures |SplitAll(s)| >= 2 && SplitAll(s)[0] == lower && SplitAll(s)[1] == upper
  {
    var afterLower := [','] + upper + tail;
    assert s == lower + afterLower;
    assert afterLower[1..] == upper + tail;
    SplitAllAfterComma(afterLower);
    SplitAllOfPieceBeforeComma(upper, tail);
    SplitAllCommaFreePrefix(lower, afterLower);
    assert lower + SplitAll(afterLower)[0] == lower;
  }

  /** Java's `split(",")` of a range-shaped string starts with its two pieces. */
  lemma SplitOfRangeShape(s: string, lower: string, upper: string, tail: string)
    requires RangeShape(s, lower, upper, tail)
    ensures |Split(s)| >= 2 && Split(s)[0] == lower && Split(s)[1] == upper
  {
    SplitAllOfRangeShape(s, lower, upper, tail);
  }

  /** The bounds of a string whose first two pieces are known and not empty. */
  lemma ParseRangeOfPieces(dictionary: Dictionary, s: string, lower: string, upper: string)
    requires |Split(s)| >= 2 && Split(s)[0] == lower && Split(s)[1] == upper && lower != "" && upper != ""
    ensures ParseRange(dictionary, s) == Success(BoundsOf(dictionary, Trim(s), lower, upper))
  {
  }

  /** What a range-shaped string parses to: the bounds come from its two pieces. */
  lemma ParseRangeOfShape(dictionary: Dictionary, s: string, lower: string, upper: string, tail: string)
    requires RangeShape(s, lower, upper, tail)
    ensures ParseRange(dictionary, s) == Success(BoundsOf(dictionary, Trim(s), lower, upper))
  {
    SplitOfRangeShape(s, lower, upper, tail);
    ParseRangeOfPieces(dictionary, s, lower, upper);
  }

  /** Two or more pieces joined with commas: the first two pieces, then the rest after a comma. */
  lemma JoinOfTwoOrMore(all: seq<string>)
    requires |all| >= 2
    ensures JoinWithCommas(all) ==
      all[0] + [','] + all[1] + (if |all| == 2 then [] else [','] + JoinWithCommas(all[2..]))
  {
    var rest := all[1..];
    assert rest[0] == all[1];
    assert JoinWithCommas(all) == all[0] + [','] + JoinWithCommas(rest);
    if |all| == 2 {
      assert JoinWithCommas(rest) == all[1];
    } else {
      assert rest[1..] == all[2..];
      var later := JoinWithCommas(all[2..]);
      assert JoinWithCommas(rest) == all[1] + [','] + later;
      assert all[0] + [','] + (all[1] + [','] + later) == all[0] + [','] + all[1] + ([','] + later);
    }
  }

  /** Two or more comma-free pieces, the first two non-empty, join to a range-shaped string. */
  lemma ShapeOfJoin(all: seq<string>, s: string, lower: string, upper: string, tail: string)
    requires |all| >= 2 && all[0] == lower && all[1] == upper
    requires lower != "" && upper != "" && ',' !in lower && ',' !in upper
    requires JoinWithCommas(all) == s
    requires tail == if |all| == 2 then [] else [','] + JoinWithCommas(all[2..])
    ensures RangeShape(s, lower, upper, tail)
  {
    JoinOfTwoOrMore(all);
  }

  /** A string RANGE can parse is range-shaped, with its first two pieces as the shape's pieces. */
  lemma RangeShapeOfParsed(dictionary: Dictionary, s: string)
    requires ParseRange(dictionary, s).Success?
    ensures exists tail :: RangeShape(s, Split(s)[0], Split(s)[1], tail)
  {
    var pieces := Split(s);
    assert |pieces| >= 2 && pieces[0] != "" && pieces[1] != "";
    RangeShapeOfSplit(s);
  }

  /** A string whose first two pieces are non-empty is range-shaped around them. */
  lemma RangeShapeOfSplit(s: string)
    requires |Split(s)| >= 2 && Split(s)[0] != "" && Split(s)[1] != ""
    ensures exists tail :: RangeShape(s, Split(s)[0], Split(s)[1], tail)
  {
    var all := SplitAll(s);
    var pieces := Split(s);
    assert all[0] == pieces[0] && all[1] == pieces[1];
    var tail: string := if |all| == 2 then [] else [','] + JoinWithCommas(all[2..]);
    ShapeOfJoin(all, s, pieces[0], pieces[1], tail);
  }

  /**
   * RANGE parsing succeeds exactly on range-shaped strings; on any other string
   * the substring or array access throws IndexOutOfBoundsException.
   */
  lemma ParseRangeSucceedsIffShaped(dictionary: Dictionary, s: string)
    ensures ParseRange(dictionary, s).Success? <==> exists lower, upper, tail :: RangeShape(s, lower, upper, tail)
    ensures ParseRange(dictionary, s).Failure? ==> ParseRange(dictionary, s).error == IndexOutOfBounds
  {
    if ParseRange(dictionary, s).Success? {
      RangeShapeOfParsed(dictionary, s);
    } else {
      forall lower, upper, tail | RangeShape(s, lower, upper, tail)
        ensures false
      {
        SplitOfRangeShape(s, lower, upper, tail);
      }
    }
  }

  /**
   * A bracketed range `open lo , hi close`: inclusiveness follows the brackets,
   * and a bound is looked up in the dictionary only when it is `*`; any other
   * bound reaches `inRange` as the empty string.
   */
  lemma RangeOfBracketedBounds(dictionary: Dictionary, open: char, lo: string, hi: string, close: char)
    requires open == '(' || open == '['
    requires close == ')' || close == ']'
    requires ',' !in lo && ',' !in hi
    ensures ParseRange(dictionary, [open] + lo + [','] + hi + [close]) ==
      Success(RangeBounds(
        if lo == "*" then dictionary.getString(0) else "",
        if hi == "*" then dictionary.getString(dictionary.length - 1) else "",
        open != '(',
        close != ')'))
  {
    var s := [open] + lo + [','] + hi + [close];
    var lower := [open] + lo;
    var upper := hi + [close];
    assert s == lower + [','] + upper + [];
    assert s[0] == open && s[|s| - 1] == close;
    assert lower[1..] == lo;
    assert upper[..|upper| - 1] == hi;
    assert RangeShape(s, lower, upper, []);
    TrimKeepsVisibleEnds(s);
    BoundsOfBracketed(dictionary, open, lo, hi, close);
    var bounds := BoundsOf(dictionary, s, lower, upper);
    ParseRangeOfShape(dictionary, s, lower, upper, []);
    assert ParseRange(dictionary, s) == Success(bounds);
  }

  /** The bounds read off the two pieces of a bracketed range. */
  lemma BoundsOfBracketed(dictionary: Dictionary, open: char, lo: string, hi: string, close: char)
    ensures BoundsOf(dictionary, [open] + lo + [','] + hi + [close], [open] + lo, hi + [close]) ==
      RangeBounds(
        if lo == "*" then dictionary.getString(0) else "",
        if hi == "*" then dictionary.getString(dictionary.length - 1) else "",
        open != '(',
        close != ')')
  {
    var s := [open] + lo + [','] + hi + [close];
    var lower := [open] + lo;
    var upper := hi + [close];
    assert s[0] == open && s[|s| - 1] == close;
    assert lower[1..] == lo;
    assert upper[..|upper| - 1] == hi;
  }

  /** A RANGE predicate with a non-null first value is the RANGE case of that string. */
  lemma RangeOfString(dictionary: Dictionary, index: InvertedIndex, s: string)
    ensures Evaluate(dictionary, index, Predicate(RANGE, [Some(s)])) == RangeFilter(dictionary, index, s)
  {
    FirstStringOfOne(RANGE, s);
  }

  /** The first value of a one-element list holding `s`, used as a string, is `s`. */
  lemma FirstStringOfOne(predicateType: PredicateType, s: string)
    ensures FirstString(Predicate(predicateType, [Some(s)])) == Success(s)
  {
  }

  /**
   * A RANGE predicate whose string parses selects a document iff it is in the set
   * of some id below the dictionary length that `inRange` accepts for the bounds.
   */
  lemma RangeSelectsAcceptedIds(dictionary: Dictionary, index: InvertedIndex, s: string)
    requires ParseRange(dictionary, s).Success?
    ensures var r := Evaluate(dictionary, index, Predicate(RANGE, [Some(s)]));
      var b := ParseRange(dictionary, s).value;
      && r.Success? && r.value.Replace?
      && forall d :: d in r.value.bitmap <==>
           exists i :: 0 <= i < dictionary.length &&
             dictionary.inRange(b.rangeStart, b.rangeEnd, i, b.incLower, b.incUpper) && d in index(i)
  {
    RangeOfString(dictionary, index, s);
    var b := ParseRange(dictionary, s).value;
    var r := Evaluate(dictionary, index, Predicate(RANGE, [Some(s)]));
    assert r == Success(Replace(UnionOf(index, RangeIds(dictionary, b))));
    forall d | exists i :: 0 <= i < dictionary.length &&
                 dictionary.inRange(b.rangeStart, b.rangeEnd, i, b.incLower, b.incUpper) && d in index(i)
      ensures d in r.value.bitmap
    {
      var i :| 0 <= i < dictionary.length &&
               dictionary.inRange(b.rangeStart, b.rangeEnd, i, b.incLower, b.incUpper) && d in index(i);
      InUnionOf(index, RangeIds(dictionary, b), i, d);
    }
  }

  /** `(lo,hi]` with literal bounds scans with two empty bounds, lower exclusive, upper inclusive. */
  lemma RangeIgnoresLiteralBounds(dictionary: Dictionary, index: InvertedIndex, lo: string, hi: string)
    requires ',' !in lo && ',' !in hi && lo != "*" && hi != "*"
    ensures Evaluate(dictionary, index, Predicate(RANGE, [Some("(" + lo + "," + hi + "]")])) ==
      Success(Replace(UnionOf(index, RangeIds(dictionary, RangeBounds("", "", false, true)))))
  {
    var s := "(" + lo + "," + hi + "]";
    assert s == ['('] + lo + [','] + hi + [']'];
    RangeOfBracketedBounds(dictionary, '(', lo, hi, ']');
    RangeOfString(dictionary, index, s);
  }

  /** `[*,*]` scans from the dictionary's first value to its last, both inclusive. */
  lemma RangeOfWildcards(dictionary: Dictionary, index: InvertedIndex)
    ensures Evaluate(dictionary, index, Predicate(RANGE, [Some("[*,*]")])) ==
      Success(Replace(UnionOf(index, RangeIds(dictionary,
        RangeBounds(dictionary.getString(0), dictionary.getString(dictionary.length - 1), true, true)))))
  {
    var s := "[*,*]";
    assert s == ['['] + "*" + [','] + "*" + [']'];
    RangeOfBracketedBounds(dictionary, '[', "*", "*", ']');
    RangeOfString(dictionary, index, s);
  }

  /** A data source over one column of a realtime segment. */
  class RealtimeColumnDataSource {
    const spec: FieldSpec
    const dictionary: Dictionary
    const invertedIndex: InvertedIndex
    const columnName: string

    /** The last predicate handed to SetPredicate (`predicate` in the Java class). */
    var currentPredicate: Option<Predicate>
    var filteredDocIdBitmap: Option<Bitmap>
    var blockReturned: bool

    constructor (spec: FieldSpec, dictionary: Dictionary, invertedIndex: InvertedIndex, columnName: string)
      ensures this.spec == spec && this.invertedIndex == invertedIndex && this.columnName == columnName
      ensures this.dictionary == dictionary
      ensures currentPredicate == None && filteredDocIdBitmap == None && !blockReturned
    {
      this.spec := spec;
      this.dictionary := dictionary;
      this.invertedIndex := invertedIndex;
      this.columnName := columnName;
      currentPredicate := None;
      filteredDocIdBitmap := None;
      blockReturned := false;
    }

    method Open() returns (ok: bool)
      ensures ok
    {
      ok := true;
    }

    /**
     * What a block request answers: nothing once the block was handed out, and
     * otherwise the column's block, of the field's kind, carrying the current
     * filter bitmap and predicate.
     */
    predicate HandsOut(wasReturned: bool, block: Option<RealtimeBlock>)
      reads this
    {
      if wasReturned then block == None
      else
        && block.Some?
        && (block.value.SingleValueBlock? <==> spec.isSingleValueField)
        && block.value.columnName == columnName
        && block.value.filteredDocIdBitmap == filteredDocIdBitmap
        && block.value.appliedPredicate == currentPredicate
    }

    /**
     * Hands out the column's block on the first call only; the block kind follows
     * the field spec and the stored predicate is applied to it when there is one.
     */
    method GetBlock() returns (block: Option<RealtimeBlock>)
      modifies this`blockReturned
      ensures blockReturned
      ensures HandsOut(old(blockReturned), block)
    {
      if !blockReturned {
        blockReturned := true;
        if spec.isSingleValueField {
          var svBlock := SingleValueBlock(columnName, filteredDocIdBitmap, None);
          if currentPredicate.Some? {
            svBlock := svBlock.(appliedPredicate := currentPredicate);
          }
          return Some(svBlock);
        } else {
          var mvBlock := MultiValueBlock(columnName, filteredDocIdBitmap, None);
          if currentPredicate.Some? {
            mvBlock := mvBlock.(appliedPredicate := currentPredicate);
          }
          return Some(mvBlock);
        }
      }
      return None;
    }

    method NextBlock() returns (block: Option<RealtimeBlock>)
      modifies this`blockReturned
      ensures blockReturned
      ensures HandsOut(old(blockReturned), block)
    {
      block := GetBlock();
    }

    /** The block id is ignored: this is the same single-shot block as NextBlock. */
    method NextBlockAt(blockId: BlockId) returns (block: Option<RealtimeBlock>)
      modifies this`blockReturned
      ensures blockReturned
      ensures HandsOut(old(blockReturned), block)
    {
      block := GetBlock();
    }

    method Close() returns (ok: bool)
      ensures ok
    {
      ok := true;
    }

    /**
     * Stores the predicate, then recomputes the filter bitmap for it. The result is
     * `true` unless the Java code throws, in which case the filter is left as it was.
     */
    method SetPredicate(p: Predicate) returns (r: Result<bool, JavaException>)
      modifies this`currentPredicate, this`filteredDocIdBitmap
      ensures currentPredicate == Some(p)
      ensures r == (match Evaluate(dictionary, invertedIndex, p)
                    case Success(_) => Success(true)
                    case Failure(e) => Failure(e))
      ensures filteredDocIdBitmap == (match Evaluate(dictionary, invertedIndex, p)
                                      case Success(Replace(b)) => Some(b)
                                      case _ => old(filteredDocIdBitmap))
    {
      currentPredicate := Some(p);
      match p.predicateType {
        case EQ =>
          if |p.rhs| == 0 { return Failure(IndexOutOfBounds); }
          var equalsValueToLookup := p.rhs[0];
          filteredDocIdBitmap := Some(invertedIndex(dictionary.indexOf(equalsValueToLookup)));
        case IN =>
          if |p.rhs| == 0 { return Failure(IndexOutOfBounds); }
          if p.rhs[0].None? { return Failure(NullPointer); }
          var orBitmapForInQueries := InBitmap(dictionary, invertedIndex, Split(p.rhs[0].value));
          filteredDocIdBitmap := Some(orBitmapForInQueries);
        case NEQ =>
          if |p.rhs| == 0 { return Failure(IndexOutOfBounds); }
          var valueToExclude := NeqExcluded(dictionary, p.rhs[0]);
          var neqBitmap := NeqBitmap(dictionary, invertedIndex, valueToExclude);
          filteredDocIdBitmap := Some(neqBitmap);
        case NOT_IN =>
          if |p.rhs| == 0 { return Failure(IndexOutOfBounds); }
          if p.rhs[0].None? { return Failure(NullPointer); }
          var notInHolder := NotInBitmap(dictionary, invertedIndex, Split(p.rhs[0].value));
          // the union is computed and then dropped: the filter is not updated
        case RANGE =>
          if |p.rhs| == 0 { return Failure(IndexOutOfBounds); }
          if p.rhs[0].None? { return Failure(NullPointer); }
          var parsed := ParseRange(dictionary, p.rhs[0].value);
          if parsed.Failure? { return Failure(parsed.error); }
          var rangeBitmap := RangeBitmap(dictionary, invertedIndex, parsed.value);
          filteredDocIdBitmap := Some(rangeBitmap);
        case REGEX =>
          return Failure(UnsupportedOperation(RegexMessage));
      }
      r := Success(true);
    }
  }
}

/**
 * The selection-only operator over one segment: it drains its projection
 * operator, turns the documents of each projection block into rows until the
 * selection's size is reached, and packs the rows, or the error that stopped
 * it, into one intermediate results block.
 */
module SelectionOnly {
  import opened Wrappers
  import opened JavaLang

  /** Position of a row in the segment; the iterator's EOF is not a document id. */
  type DocId = nat

  /** The result schema: the selection's column names, in packing order. */
  datatype DataSchema = DataSchema(columnNames: seq<string>)

  /**
   * A block handed out by the projection operator: the value block of each
   * projected column (of type B) and the document ids its doc-id set iterates.
   */
  datatype ProjectionBlock<B> = ProjectionBlock(columns: map<string, B>, docIds: seq<DocId>)

  /** One `nextBlock()` answer of the projection operator: a block, or an exception. */
  datatype Pull<B> = Next(block: ProjectionBlock<B>) | Throw(message: string)

  datatype ErrorKind = QueryExecutionError

  /** A processing exception of a result block. */
  datatype ProcessingException = ProcessingException(kind: ErrorKind, message: string)

  /** The intermediate results block a selection returns (timing is not modelled). */
  datatype IntermediateResultsBlock<R> = IntermediateResultsBlock(
    selectionResult: Option<seq<R>>,
    selectionDataSchema: Option<DataSchema>,
    numDocsScanned: nat,
    totalDocs: nat,
    exceptions: seq<ProcessingException>)

  /**
   * What the operator is built with: the result schema, the selection's size
   * (`_limitDocs`), and the row builder, which reads one document's values from
   * the column blocks and may throw (the string is the exception's message).
   */
  datatype SelectionPlan<!B, R> = SelectionPlan(
    dataSchema: DataSchema,
    limitDocs: int,
    collectRow: (DocId, seq<Option<B>>, DataSchema) -> Result<R, string>)

  /** `projectionBlock.getBlock(column)`: the column's value block, `None` if it was not projected. */
  function GetBlock<B>(pb: ProjectionBlock<B>, column: string): (r: Option<B>)
    ensures r.Some? <==> column in pb.columns
    ensures r.Some? ==> r.value == pb.columns[column]
  {
    if column in pb.columns then Some(pb.columns[column]) else None
  }

  /** The column blocks of a projection block, in the schema's order. */
  function ColumnsFor<B>(pb: ProjectionBlock<B>, schema: DataSchema): (columns: seq<Option<B>>)
    ensures |columns| == |schema.columnNames|
    ensures forall i :: 0 <= i < |columns| ==> columns[i] == GetBlock(pb, schema.columnNames[i])
  {
    seq(|schema.columnNames|, i requires 0 <= i < |schema.columnNames| => GetBlock(pb, schema.columnNames[i]))
  }

  // The drain loop as functions of the operator's state.

  /** The state after scanning one block's documents. */
  datatype Scan<R> = Scan(rows: seq<R>, scanned: nat, failure: Option<string>)

  /**
   * The inner loop: take doc ids while there are any and the rows are below the
   * limit; count each and append its row, unless building the row throws.
   */
  function ScanDocs<B, R>(plan: SelectionPlan<B, R>, rows: seq<R>, scanned: nat,
                          docIds: seq<DocId>, columns: seq<Option<B>>): Scan<R>
    decreases |docIds|
  {
    if |docIds| == 0 || |rows| >= plan.limitDocs then Scan(rows, scanned, None)
    else
      match plan.collectRow(docIds[0], columns, plan.dataSchema)
      case Failure(m) => Scan(rows, scanned + 1, Some(m))
      case Success(row) => ScanDocs(plan, rows + [row], scanned + 1, docIds[1..], columns)
  }

  /** The operator's state after draining: rows, count, column blocks, the child's remaining answers, the failure. */
  datatype DrainState<B, R> = DrainState(
    rows: seq<R>, scanned: nat, columns: seq<Option<B>>, pending: seq<Pull<B>>, failure: Option<string>)

  /** The outer loop: pull blocks until the child has no more, or something throws. */
  function Drain<B, R>(plan: SelectionPlan<B, R>, rows: seq<R>, scanned: nat,
                       columns: seq<Option<B>>, pending: seq<Pull<B>>): DrainState<B, R>
    decreases |pending|
  {
    if |pending| == 0 then DrainState(rows, scanned, columns, [], None)
    else
      match pending[0]
      case Throw(m) => DrainState(rows, scanned, columns, pending[1..], Some(m))
      case Next(pb) =>
        var cols := ColumnsFor(pb, plan.dataSchema);
        var s := ScanDocs(plan, rows, scanned, pb.docIds, cols);
        if s.failure.Some? then DrainState(s.rows, s.scanned, cols, pending[1..], s.failure)
        else Drain(plan, s.rows, s.scanned, cols, pending[1..])
  }

  // An independent reference: the documents in pull order, cut at the room left.

  /** A document to turn into a row, with the column blocks it is read from. */
  datatype Visit<B> = Visit(docId: DocId, columns: seq<Option<B>>)

  function VisitsOf<B>(docIds: seq<DocId>, columns: seq<Option<B>>): seq<Visit<B>> {
    seq(|docIds|, k requires 0 <= k < |docIds| => Visit(docIds[k], columns))
  }

  /** Every document the child's blocks offer, block after block, up to the first exception. */
  function Visits<B>(pending: seq<Pull<B>>, schema: DataSchema): seq<Visit<B>>
    decreases |pending|
  {
    if |pending| == 0 then []
    else
      match pending[0]
      case Throw(_) => []
      case Next(pb) => VisitsOf(pb.docIds, ColumnsFor(pb, schema)) + Visits(pending[1..], schema)
  }

  predicate NoThrow<B>(pending: seq<Pull<B>>) {
    forall k :: 0 <= k < |pending| ==> pending[k].Next?
  }

  /** The rows of the visits, in order, or the first exception. */
  function Collect<B, R>(plan: SelectionPlan<B, R>, visits: seq<Visit<B>>): Result<seq<R>, string>
    decreases |visits|
  {
    if |visits| == 0 then Success([])
    else
      match plan.collectRow(visits[0].docId, visits[0].columns, plan.dataSchema)
      case Failure(m) => Failure(m)
      case Success(row) =>
        match Collect(plan, visits[1..])
        case Failure(m) => Failure(m)
        case Success(rest) => Success([row] + rest)
  }

  lemma NoThrowTail<B>(pending: seq<Pull<B>>)
    requires |pending| > 0
    ensures NoThrow(pending) <==> pending[0].Next? && NoThrow(pending[1..])
  {
    assert forall k :: 1 <= k < |pending| ==> pending[k] == pending[1..][k - 1];
  }

  /** How many more rows fit below the limit. */
  function Room(limit: int, count: nat): nat {
    if limit > count then limit - count else 0
  }

  function Take<T>(s: seq<T>, n: nat): seq<T> {
    if n <= |s| then s[..n] else s
  }

  // Lemmas about the drain.

  lemma {:induction false} CollectLength<B, R>(plan: SelectionPlan<B, R>, visits: seq<Visit<B>>)
    ensures Collect(plan, visits).Success? ==> |Collect(plan, visits).value| == |visits|
    decreases |visits|
  {
    if |visits| > 0 {
      CollectLength(plan, visits[1..]);
    }
  }

  lemma {:induction false} CollectConcat<B, R>(plan: SelectionPlan<B, R>, a: seq<Visit<B>>, b: seq<Visit<B>>)
    ensures Collect(plan, a + b).Success? <==> Collect(plan, a).Success? && Collect(plan, b).Success?
    ensures Collect(plan, a + b).Success? ==>
      Collect(plan, a + b).value == Collect(plan, a).value + Collect(plan, b).value
    decreases |a|
  {
    if |a| == 0 {
      assert a + b == b;
    } else {
      assert (a + b)[0] == a[0];
      assert (a + b)[1..] == a[1..] + b;
      CollectConcat(plan, a[1..], b);
    }
  }

  lemma TakeConcat<T>(a: seq<T>, b: seq<T>, n: nat)
    ensures Take(a + b, n) == Take(a, n) + Take(b, n - (if n <= |a| then n else |a|))
  {
    if n <= |a| {
      assert (a + b)[..n] == a[..n];
    } else if n <= |a| + |b| {
      assert (a + b)[..n] == a + b[..n - |a|];
    }
  }

  /** One block's scan adds exactly the rows of the documents that fit, in iterator order. */
  lemma {:induction false} ScanMatchesReference<B, R>(plan: SelectionPlan<B, R>, rows: seq<R>, scanned: nat,
                                                      docIds: seq<DocId>, columns: seq<Option<B>>)
    ensures var s := ScanDocs(plan, rows, scanned, docIds, columns);
      var taken := Take(VisitsOf(docIds, columns), Room(plan.limitDocs, |rows|));
      && (s.failure.None? <==> Collect(plan, taken).Success?)
      && (s.failure.None? ==> s.rows == rows + Collect(plan, taken).value && s.scanned == scanned + |taken|)
    decreases |docIds|, 1
  {
    if |docIds| == 0 || |rows| >= plan.limitDocs {
      assert Take(VisitsOf(docIds, columns), Room(plan.limitDocs, |rows|)) == [];
      assert rows + [] == rows;
    } else {
      ScanNextMatchesReference(plan, rows, scanned, docIds, columns);
    }
  }

  /** The step of ScanMatchesReference for a document that still fits below the limit. */
  lemma {:induction false} ScanNextMatchesReference<B, R>(plan: SelectionPlan<B, R>, rows: seq<R>, scanned: nat,
                                                          docIds: seq<DocId>, columns: seq<Option<B>>)
    requires |docIds| > 0 && |rows| < plan.limitDocs
    ensures var s := ScanDocs(plan, rows, scanned, docIds, columns);
      var taken := Take(VisitsOf(docIds, columns), Room(plan.limitDocs, |rows|));
      && (s.failure.None? <==> Collect(plan, taken).Success?)
      && (s.failure.None? ==> s.rows == rows + Collect(plan, taken).value && s.scanned == scanned + |taken|)
    decreases |docIds|, 0
  {
    var room := Room(plan.limitDocs, |rows|);
    var taken := Take(VisitsOf(docIds, columns), room);
    var rest := Take(VisitsOf(docIds[1..], columns), room - 1);
    TakeVisitsStep(docIds, columns, room);
    assert taken[0] == Visit(docIds[0], columns) && taken[1..] == rest;
    match plan.collectRow(docIds[0], columns, plan.dataSchema)
    case Failure(m) =>
      assert Collect(plan, taken) == Failure(m);
    case Success(row) =>
      var s := ScanDocs(plan, rows + [row], scanned + 1, docIds[1..], columns);
      assert ScanDocs(plan, rows, scanned, docIds, columns) == s;
      assert Room(plan.limitDocs, |rows + [row]|) == room - 1;
      ScanMatchesReference(plan, rows + [row], scanned + 1, docIds[1..], columns);
      ScanCompose(rows, scanned, row, s, Collect(plan, rest), Collect(plan, taken), |rest|, |taken|);
  }

  /** The documents that fit, for a block with a first document and room for it. */
  lemma TakeVisitsStep<B>(docIds: seq<DocId>, columns: seq<Option<B>>, room: nat)
    requires |docIds| > 0 && room > 0
    ensures Take(VisitsOf(docIds, columns), room) ==
      [Visit(docIds[0], columns)] + Take(VisitsOf(docIds[1..], columns), room - 1)
  {
    var visits := VisitsOf(docIds, columns);
    assert VisitsOf(docIds[1..], columns) == visits[1..];
    assert visits == [visits[0]] + visits[1..];
  }

  /** The bookkeeping of ScanNextMatchesReference for a first row that is built, on plain values. */
  lemma ScanCompose<R>(rows: seq<R>, scanned: nat, row: R, s: Scan<R>,
                       later: Result<seq<R>, string>, both: Result<seq<R>, string>, nLater: nat, nBoth: nat)
    requires s.failure.None? <==> later.Success?
    requires s.failure.None? ==> s.rows == rows + [row] + later.value && s.scanned == scanned + 1 + nLater
    requires both == (match later case Failure(m) => Failure(m) case Success(more) => Success([row] + more))
    requires nBoth == nLater + 1
    ensures s.failure.None? <==> both.Success?
    ensures s.failure.None? ==> s.rows == rows + both.value && s.scanned == scanned + nBoth
  {
    if s.failure.None? {
      assert rows + [row] + later.value == rows + ([row] + later.value);
    }
  }

  /**
   * The drain succeeds iff the child never throws and every document that fits
   * below the limit yields a row; then exactly those rows are appended, in pull
   * order and iterator order, and each is counted once.
   */
  lemma {:induction false} DrainMatchesReference<B, R>(plan: SelectionPlan<B, R>, rows: seq<R>, scanned: nat,
                                                       columns: seq<Option<B>>, pending: seq<Pull<B>>)
    ensures var d := Drain(plan, rows, scanned, columns, pending);
      var taken := Take(Visits(pending, plan.dataSchema), Room(plan.limitDocs, |rows|));
      && (d.failure.None? <==> NoThrow(pending) && Collect(plan, taken).Success?)
      && (d.failure.None? ==> d.rows == rows + Collect(plan, taken).value && d.scanned == scanned + |taken|)
    decreases |pending|, 1
  {
    if |pending| == 0 {
      assert Take(Visits(pending, plan.dataSchema), Room(plan.limitDocs, |rows|)) == [];
      assert rows + [] == rows;
    } else if pending[0].Throw? {
      assert !NoThrow(pending);
    } else {
      DrainNextMatchesReference(plan, rows, scanned, columns, pending);
    }
  }

  /** The step of DrainMatchesReference for a child whose next answer is a block. */
  lemma {:induction false} DrainNextMatchesReference<B, R>(plan: SelectionPlan<B, R>, rows: seq<R>, scanned: nat,
                                                           columns: seq<Option<B>>, pending: seq<Pull<B>>)
    requires |pending| > 0 && pending[0].Next?
    ensures var d := Drain(plan, rows, scanned, columns, pending);
      var taken := Take(Visits(pending, plan.dataSchema), Room(plan.limitDocs, |rows|));
      && (d.failure.None? <==> NoThrow(pending) && Collect(plan, taken).Success?)
      && (d.failure.None? ==> d.rows == rows + Collect(plan, taken).value && d.scanned == scanned + |taken|)
    decreases |pending|, 0
  {
    var room := Room(plan.limitDocs, |rows|);
    var d := Drain(plan, rows, scanned, columns, pending);
    var pb := pending[0].block;
    var cols := ColumnsFor(pb, plan.dataSchema);
    var s := ScanDocs(plan, rows, scanned, pb.docIds, cols);
    var first := VisitsOf(pb.docIds, cols);
    var later := Visits(pending[1..], plan.dataSchema);
    var used := if room <= |first| then room else |first|;
    var tf, tl := Take(first, room), Take(later, room - used);
    var taken := Take(first + later, room);
    assert Visits(pending, plan.dataSchema) == first + later;
    TakeConcat(first, later, room);
    assert taken == tf + tl;
    CollectConcat(plan, tf, tl);
    ScanMatchesReference(plan, rows, scanned, pb.docIds, cols);
    NoThrowTail(pending);
    if s.failure.None? {
      assert d == Drain(plan, s.rows, s.scanned, cols, pending[1..]);
      CollectLength(plan, tf);
      assert Room(plan.limitDocs, |s.rows|) == room - used;
      DrainMatchesReference(plan, s.rows, s.scanned, cols, pending[1..]);
    } else {
      assert d.failure.Some?;
    }
    ComposeStep(rows, scanned, s, d, Collect(plan, tf), Collect(plan, tl), Collect(plan, taken),
                NoThrow(pending), NoThrow(pending[1..]), |tf|, |tl|, |taken|);
  }

  /** The bookkeeping of DrainNextMatchesReference, on plain values. */
  lemma ComposeStep<B, R>(rows: seq<R>, scanned: nat, s: Scan<R>, d: DrainState<B, R>,
                          first: Result<seq<R>, string>, later: Result<seq<R>, string>, both: Result<seq<R>, string>,
                          noThrowAll: bool, noThrowLater: bool, nFirst: nat, nLater: nat, nBoth: nat)
    requires both.Success? <==> first.Success? && later.Success?
    requires both.Success? ==> both.value == first.value + later.value
    requires nBoth == nFirst + nLater
    requires s.failure.None? <==> first.Success?
    requires s.failure.None? ==> s.rows == rows + first.value && s.scanned == scanned + nFirst
    requires noThrowAll <==> noThrowLater
    requires s.failure.None? ==> (d.failure.None? <==> noThrowLater && later.Success?)
    requires s.failure.None? && d.failure.None? ==> d.rows == s.rows + later.value && d.scanned == s.scanned + nLater
    requires s.failure.Some? ==> d.failure.Some?
    ensures d.failure.None? <==> noThrowAll && both.Success?
    ensures d.failure.None? ==> d.rows == rows + both.value && d.scanned == scanned + nBoth
  {
    if d.failure.None? {
      assert rows + first.value + later.value == rows + (first.value + later.value);
    }
  }

  /**
   * The drain only appends to the rows, and it consumes a prefix of the child's
   * answers: all of them when it succeeds, at least one when it fails.
   */
  lemma {:induction false} DrainOnlyAppends<B, R>(plan: SelectionPlan<B, R>, rows: seq<R>, scanned: nat,
                                                  columns: seq<Option<B>>, pending: seq<Pull<B>>)
    ensures var d := Drain(plan, rows, scanned, columns, pending);
      && rows <= d.rows
      && |d.pending| <= |pending| && d.pending == pending[|pending| - |d.pending|..]
      && (d.failure.None? ==> d.pending == [])
      && (d.failure.Some? ==> |d.pending| < |pending|)
    decreases |pending|
  {
    if |pending| > 0 && pending[0].Next? {
      var pb := pending[0].block;
      var cols := ColumnsFor(pb, plan.dataSchema);
      ScanOnlyAppends(plan, rows, scanned, pb.docIds, cols);
      var s := ScanDocs(plan, rows, scanned, pb.docIds, cols);
      if s.failure.None? {
        DrainOnlyAppends(plan, s.rows, s.scanned, cols, pending[1..]);
        var d := Drain(plan, s.rows, s.scanned, cols, pending[1..]);
        assert pending[1..][|pending| - 1 - |d.pending|..] == pending[|pending| - |d.pending|..];
      }
    }
  }

  /**
   * One block's scan keeps the old rows in place, never passes the limit, adds
   * nothing at the limit, and counts one per appended row plus one for a row
   * that threw; it stops early only at the limit or on a throw.
   */
  lemma {:induction false} ScanOnlyAppends<B, R>(plan: SelectionPlan<B, R>, rows: seq<R>, scanned: nat,
                                                 docIds: seq<DocId>, columns: seq<Option<B>>)
    ensures var s := ScanDocs(plan, rows, scanned, docIds, columns);
      && rows <= s.rows
      && (|rows| <= plan.limitDocs ==> |s.rows| <= plan.limitDocs)
      && (|rows| >= plan.limitDocs ==> s == Scan(rows, scanned, None))
      && s.scanned - scanned == |s.rows| - |rows| + (if s.failure.Some? then 1 else 0) <= |docIds|
      && (s.failure.None? ==> s.scanned - scanned == |docIds| || |s.rows| >= plan.limitDocs)
    decreases |docIds|
  {
    if |docIds| > 0 && |rows| < plan.limitDocs {
      match plan.collectRow(docIds[0], columns, plan.dataSchema)
      case Failure(m) =>
      case Success(row) =>
        ScanOnlyAppends(plan, rows + [row], scanned + 1, docIds[1..], columns);
    }
  }

  /** Starting at or below the limit, the drain never grows the rows past it, even when it fails. */
  lemma {:induction false} DrainRespectsLimit<B, R>(plan: SelectionPlan<B, R>, rows: seq<R>, scanned: nat,
                                                    columns: seq<Option<B>>, pending: seq<Pull<B>>)
    requires |rows| <= plan.limitDocs
    ensures |Drain(plan, rows, scanned, columns, pending).rows| <= plan.limitDocs
    decreases |pending|
  {
    if |pending| > 0 && pending[0].Next? {
      var pb := pending[0].block;
      var cols := ColumnsFor(pb, plan.dataSchema);
      ScanOnlyAppends(plan, rows, scanned, pb.docIds, cols);
      var s := ScanDocs(plan, rows, scanned, pb.docIds, cols);
      if s.failure.None? {
        DrainRespectsLimit(plan, s.rows, s.scanned, cols, pending[1..]);
      }
    }
  }

  /** On success the scanned count grows by exactly the number of rows appended. */
  lemma {:induction false} DrainCountsAppendedRows<B, R>(plan: SelectionPlan<B, R>, rows: seq<R>, scanned: nat,
                                                         columns: seq<Option<B>>, pending: seq<Pull<B>>)
    ensures var d := Drain(plan, rows, scanned, columns, pending);
      d.failure.None? ==> d.scanned == scanned + (|d.rows| - |rows|)
    decreases |pending|
  {
    if |pending| > 0 && pending[0].Next? {
      var pb := pending[0].block;
      var cols := ColumnsFor(pb, plan.dataSchema);
      ScanOnlyAppends(plan, rows, scanned, pb.docIds, cols);
      var s := ScanDocs(plan, rows, scanned, pb.docIds, cols);
      if s.failure.None? {
        DrainOnlyAppends(plan, s.rows, s.scanned, cols, pending[1..]);
        DrainCountsAppendedRows(plan, s.rows, s.scanned, cols, pending[1..]);
      }
    }
  }

  /**
   * At the limit nothing is added or counted, yet every block is still pulled:
   * the drain fails exactly when some later answer of the child throws.
   */
  lemma {:induction false} DrainAtLimit<B, R>(plan: SelectionPlan<B, R>, rows: seq<R>, scanned: nat,
                                              columns: seq<Option<B>>, pending: seq<Pull<B>>)
    requires |rows| >= plan.limitDocs
    ensures var d := Drain(plan, rows, scanned, columns, pending);
      d.rows == rows && d.scanned == scanned && (d.failure.None? <==> NoThrow(pending))
    decreases |pending|
  {
    if |pending| > 0 {
      NoThrowTail(pending);
      if pending[0].Next? {
        var pb := pending[0].block;
        var cols := ColumnsFor(pb, plan.dataSchema);
        assert ScanDocs(plan, rows, scanned, pb.docIds, cols) == Scan(rows, scanned, None);
        DrainAtLimit(plan, rows, scanned, cols, pending[1..]);
      }
    }
  }

  /** The column blocks of the last block among the answers pulled, or `columns` if there is none. */
  function LastPulledColumns<B>(columns: seq<Option<B>>, pulled: seq<Pull<B>>, schema: DataSchema): seq<Option<B>>
    decreases |pulled|
  {
    if |pulled| == 0 then columns
    else if pulled[|pulled| - 1].Next? then ColumnsFor(pulled[|pulled| - 1].block, schema)
    else LastPulledColumns(columns, pulled[..|pulled| - 1], schema)
  }

  /** Pulling one more answer first: it only matters when no later answer is a block. */
  lemma {:induction false} LastPulledAfterFirst<B>(columns: seq<Option<B>>, first: Pull<B>, later: seq<Pull<B>>,
                                                  schema: DataSchema)
    ensures LastPulledColumns(columns, [first] + later, schema) ==
      LastPulledColumns(if first.Next? then ColumnsFor(first.block, schema) else columns, later, schema)
    decreases |later|
  {
    var start := if first.Next? then ColumnsFor(first.block, schema) else columns;
    if |later| == 0 {
      assert ([first] + later)[..0] == [];
    } else {
      var all := [first] + later;
      assert all[|all| - 1] == later[|later| - 1];
      assert all[..|all| - 1] == [first] + later[..|later| - 1];
      LastPulledAfterFirst(columns, first, later[..|later| - 1], schema);
    }
  }

  /** After the drain the column blocks are those of the last block among the answers it pulled. */
  lemma {:induction false} DrainColumnsAreLastPulled<B, R>(plan: SelectionPlan<B, R>, rows: seq<R>, scanned: nat,
                                                           columns: seq<Option<B>>, pending: seq<Pull<B>>)
    ensures var d := Drain(plan, rows, scanned, columns, pending);
      |d.pending| <= |pending| &&
      d.columns == LastPulledColumns(columns, pending[..|pending| - |d.pending|], plan.dataSchema)
    decreases |pending|, 1
  {
    DrainOnlyAppends(plan, rows, scanned, columns, pending);
    if |pending| > 0 {
      var first := pending[0];
      var start := if first.Next? then ColumnsFor(first.block, plan.dataSchema) else columns;
      if first.Next? && ScanDocs(plan, rows, scanned, first.block.docIds, start).failure.None? {
        DrainNextColumnsAreLastPulled(plan, rows, scanned, columns, pending);
      } else {
        assert pending[..1] == [first] + [];
        LastPulledAfterFirst(columns, first, [], plan.dataSchema);
      }
    }
  }

  /** The step of DrainColumnsAreLastPulled for a first block whose scan does not throw. */
  lemma {:induction false} DrainNextColumnsAreLastPulled<B, R>(plan: SelectionPlan<B, R>, rows: seq<R>, scanned: nat,
                                                               columns: seq<Option<B>>, pending: seq<Pull<B>>)
    requires |pending| > 0 && pending[0].Next?
    requires ScanDocs(plan, rows, scanned, pending[0].block.docIds,
                      ColumnsFor(pending[0].block, plan.dataSchema)).failure.None?
    ensures var d := Drain(plan, rows, scanned, columns, pending);
      |d.pending| <= |pending| &&
      d.columns == LastPulledColumns(columns, pending[..|pending| - |d.pending|], plan.dataSchema)
    decreases |pending|, 0
  {
    var first := pending[0];
    var start := ColumnsFor(first.block, plan.dataSchema);
    var s := ScanDocs(plan, rows, scanned, first.block.docIds, start);
    var d := Drain(plan, s.rows, s.scanned, start, pending[1..]);
    var k := |pending| - |d.pending|;
    assert Drain(plan, rows, scanned, columns, pending) == d;
    DrainOnlyAppends(plan, s.rows, s.scanned, start, pending[1..]);
    DrainColumnsAreLastPulled(plan, s.rows, s.scanned, start, pending[1..]);
    assert pending[..k] == [first] + pending[1..][..k - 1];
    LastPulledAfterFirst(columns, first, pending[1..][..k - 1], plan.dataSchema);
  }

  /**
   * The column blocks left behind, one per schema column in order: on success
   * those of the child's last block; on failure those of the block whose scan
   * threw, or of the last block before the answer that threw.
   */
  lemma DrainKeepsLastBlockColumns<B, R>(plan: SelectionPlan<B, R>, rows: seq<R>, scanned: nat,
                                         columns: seq<Option<B>>, pending: seq<Pull<B>>)
    ensures var d := Drain(plan, rows, scanned, columns, pending);
      var k := |pending| - |d.pending|;
      && (d.failure.Some? ==> 0 < k <= |pending|)
      && (d.failure.None? && NoThrow(pending) && |pending| > 0 ==>
            d.columns == ColumnsFor(pending[|pending| - 1].block, plan.dataSchema))
      && (d.failure.Some? && pending[k - 1].Next? ==>
            d.columns == ColumnsFor(pending[k - 1].block, plan.dataSchema))
      && (d.failure.Some? && pending[k - 1].Throw? ==>
            d.columns == LastPulledColumns(columns, pending[..k - 1], plan.dataSchema))
  {
    var d := Drain(plan, rows, scanned, columns, pending);
    var k := |pending| - |d.pending|;
    DrainOnlyAppends(plan, rows, scanned, columns, pending);
    DrainColumnsAreLastPulled(plan, rows, scanned, columns, pending);
    if d.failure.None? {
      assert pending[..k] == pending;
    } else {
      assert pending[..k][..k - 1] == pending[..k - 1];
    }
  }

  /**
   * With at least `limitDocs` documents on offer, no exception and every row
   * buildable, a fresh drain returns exactly `limitDocs` rows and counts as many.
   */
  lemma SelectionFillsToLimit<B, R>(plan: SelectionPlan<B, R>, columns: seq<Option<B>>, pending: seq<Pull<B>>)
    requires plan.limitDocs >= 0
    requires NoThrow(pending)
    requires |Visits(pending, plan.dataSchema)| >= plan.limitDocs
    requires Collect(plan, Visits(pending, plan.dataSchema)[..plan.limitDocs]).Success?
    ensures var d := Drain(plan, [], 0, columns, pending);
      d.failure.None? && |d.rows| == plan.limitDocs && d.scanned == plan.limitDocs
  {
    var taken := Take(Visits(pending, plan.dataSchema), Room(plan.limitDocs, 0));
    assert taken == Visits(pending, plan.dataSchema)[..plan.limitDocs];
    DrainMatchesReference(plan, [], 0, columns, pending);
    CollectLength(plan, taken);
  }

  // The operators.

  /**
   * Stand-in for the projection operator, whose implementation is not part of
   * this model: the answers its `nextBlock()` still has to give; once they are
   * used up it returns null.
   */
  class ProjectionOperator<B> {
    var pending: seq<Pull<B>>
    var isOpen: bool
    var isClosed: bool

    constructor (answers: seq<Pull<B>>)
      ensures pending == answers && !isOpen && !isClosed
    {
      pending := answers;
      isOpen := false;
      isClosed := false;
    }

    method Open()
      modifies this`isOpen
      ensures isOpen
    {
      isOpen := true;
    }

    method Close()
      modifies this`isClosed
      ensures isClosed
    {
      isClosed := true;
    }

    /** The next block, `None` for null, or the exception's message. */
    method NextBlock() returns (r: Result<Option<ProjectionBlock<B>>, string>)
      modifies this`pending
      ensures old(pending) == [] ==> r == Success(None) && pending == []
      ensures old(pending) != [] ==>
        && pending == old(pending)[1..]
        && r == (match old(pending)[0]
                 case Next(pb) => Success(Some(pb))
                 case Throw(m) => Failure(m))
    {
      if pending == [] {
        return Success(None);
      }
      var answer := pending[0];
      pending := pending[1..];
      match answer {
        case Next(pb) => r := Success(Some(pb));
        case Throw(m) => r := Failure(m);
      }
    }
  }

  /** The doc-id iterator of a projection block; `None` stands for `Constants.EOF`. */
  class BlockDocIdIterator {
    const docIds: seq<DocId>
    var position: nat

    constructor (docIds: seq<DocId>)
      ensures this.docIds == docIds && position == 0
    {
      this.docIds := docIds;
      position := 0;
    }

    method Next() returns (docId: Option<DocId>)
      requires position <= |docIds|
      modifies this`position
      ensures old(position) < |docIds| ==> docId == Some(docIds[old(position)]) && position == old(position) + 1
      ensures old(position) == |docIds| ==> docId == None && position == old(position)
    {
      if position < |docIds| {
        docId := Some(docIds[position]);
        position := position + 1;
      } else {
        docId := None;
      }
    }
  }

  /** Applies a selection to one segment and returns the rows in one results block. */
  class MSelectionOnlyOperator<B, R> {
    const totalDocs: nat
    const plan: SelectionPlan<B, R>
    const projectionOperator: ProjectionOperator<B>
    const blocks: array<Option<B>>
    var rowEvents: seq<R>

    ghost predicate Valid()
      reads this
    {
      blocks.Length == |plan.dataSchema.columnNames|
    }

    /** `segmentTotalDocs` is what the segment's `getTotalDocs()` reports. */
    constructor (segmentTotalDocs: nat, plan: SelectionPlan<B, R>, projectionOperator: ProjectionOperator<B>)
      ensures Valid() && fresh(blocks)
      ensures totalDocs == segmentTotalDocs && this.plan == plan && this.projectionOperator == projectionOperator
      ensures rowEvents == []
      ensures forall i :: 0 <= i < blocks.Length ==> blocks[i] == None
    {
      totalDocs := segmentTotalDocs;
      this.plan := plan;
      this.projectionOperator := projectionOperator;
      blocks := new Option<B>[|plan.dataSchema.columnNames|](_ => None);
      rowEvents := [];
    }

    method Open() returns (ok: bool)
      modifies projectionOperator`isOpen
      ensures ok && projectionOperator.isOpen
    {
      projectionOperator.Open();
      ok := true;
    }

    method Close() returns (ok: bool)
      modifies projectionOperator`isClosed
      ensures ok && projectionOperator.isClosed
    {
      projectionOperator.Close();
      ok := true;
    }

    /** Pulling a block by id is not supported. */
    method NextBlockAt(blockId: int) returns (r: Result<IntermediateResultsBlock<R>, JavaException>)
      ensures r.Failure? && r.error.UnsupportedOperation?
    {
      r := Failure(UnsupportedOperation(""));
    }

    /** Points each schema column's slot at that column's block of `projectionBlock`. */
    method FillBlocks(projectionBlock: ProjectionBlock<B>)
      requires Valid()
      modifies blocks
      ensures blocks[..] == ColumnsFor(projectionBlock, plan.dataSchema)
    {
      var names := plan.dataSchema.columnNames;
      var i := 0;
      while i < |names|
        invariant 0 <= i <= |names|
        invariant forall k :: 0 <= k < i ==> blocks[k] == GetBlock(projectionBlock, names[k])
      {
        blocks[i] := GetBlock(projectionBlock, names[i]);
        i := i + 1;
      }
    }

    /**
     * Iterates the block's doc ids while the rows are below the limit, counting
     * each document and appending its row, until the iterator ends or a row throws.
     */
    method ScanBlock(projectionBlock: ProjectionBlock<B>, scanned: nat) returns (numDocsScanned: nat, failure: Option<string>)
      modifies this`rowEvents
      ensures var s := ScanDocs(plan, old(rowEvents), scanned, projectionBlock.docIds, blocks[..]);
        rowEvents == s.rows && numDocsScanned == s.scanned && failure == s.failure
    {
      numDocsScanned := scanned;
      failure := None;
      ghost var scan := ScanDocs(plan, rowEvents, numDocsScanned, projectionBlock.docIds, blocks[..]);
      var blockDocIdIterator: BlockDocIdIterator := new BlockDocIdIterator(projectionBlock.docIds);
      var stop := false;
      while !stop
        invariant blockDocIdIterator.position <= |projectionBlock.docIds|
        invariant !stop ==>
          && failure.None?
          && ScanDocs(plan, rowEvents, numDocsScanned,
                   projectionBlock.docIds[blockDocIdIterator.position..], blocks[..]) == scan
        invariant stop ==> rowEvents == scan.rows && numDocsScanned == scan.scanned && failure == scan.failure
        modifies this`rowEvents, blockDocIdIterator`position
        decreases |projectionBlock.docIds| - blockDocIdIterator.position + (if stop then 0 else 1)
      {
        ghost var rest := projectionBlock.docIds[blockDocIdIterator.position..];
        var docId := blockDocIdIterator.Next();
        if docId.None? || |rowEvents| >= plan.limitDocs {
          stop := true;
        } else {
          assert rest[0] == docId.value && rest[1..] == projectionBlock.docIds[blockDocIdIterator.position..];
          numDocsScanned := numDocsScanned + 1;
          var row := plan.collectRow(docId.value, blocks[..], plan.dataSchema);
          match row {
            case Failure(m) =>
              failure := Some(m);
              stop := true;
            case Success(r) =>
              rowEvents := rowEvents + [r];
          }
        }
      }
    }

    /**
     * Drains the projection operator into the row list and reports the outcome;
     * an exception anywhere in the loop is caught and reported instead.
     */
    method NextBlock() returns (result: IntermediateResultsBlock<R>)
      requires Valid()
      modifies this`rowEvents, blocks, projectionOperator`pending
      ensures Valid()
      ensures var d := Drain(plan, old(rowEvents), 0, old(blocks[..]), old(projectionOperator.pending));
        && rowEvents == d.rows
        && blocks[..] == d.columns
        && projectionOperator.pending == d.pending
        && result.totalDocs == totalDocs
        && (d.failure.None? ==>
              && result.selectionResult == Some(d.rows)
              && result.selectionDataSchema == Some(plan.dataSchema)
              && result.numDocsScanned == d.scanned
              && result.exceptions == [])
        && (d.failure.Some? ==>
              && result.selectionResult == None
              && result.selectionDataSchema == None
              && result.numDocsScanned == 0
              && result.exceptions == [ProcessingException(QueryExecutionError, d.failure.value)])
    {
      ghost var target := Drain(plan, rowEvents, 0, blocks[..], projectionOperator.pending);
      var numDocsScanned: nat := 0;
      var failure: Option<string> := None;
      var done := false;
      while !done
        invariant !done ==>
          && failure.None?
          && Drain(plan, rowEvents, numDocsScanned, blocks[..], projectionOperator.pending) == target
        invariant done ==>
          && rowEvents == target.rows && numDocsScanned == target.scanned
          && blocks[..] == target.columns && projectionOperator.pending == target.pending
          && failure == target.failure
        decreases |projectionOperator.pending| + (if done then 0 else 1)
      {
        var pulled := projectionOperator.NextBlock();
        match pulled {
          case Failure(m) =>
            failure := Some(m);
            done := true;
          case Success(None) =>
            done := true;
          case Success(Some(projectionBlock)) =>
            FillBlocks(projectionBlock);
            numDocsScanned, failure := ScanBlock(projectionBlock, numDocsScanned);
            if failure.Some? {
              done := true;
            }
        }
      }
      if failure.None? {
        result := IntermediateResultsBlock(Some(rowEvents), Some(plan.dataSchema), numDocsScanned, totalDocs, []);
      } else {
        var exception := ProcessingException(QueryExecutionError, failure.value);
        result := IntermediateResultsBlock(None, None, 0, totalDocs, [exception]);
      }
    }
  }
}

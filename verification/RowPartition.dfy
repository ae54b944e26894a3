/** Every row of a recorded batch is accounted for exactly once, on every run. */
module RowPartition {
  import opened ImpactModels
  import opened RowOutcomes
  import opened Processor
  import opened Planning
  import opened Protocol

  lemma InitSound(p: Setup, now: Time)
    requires p.Valid()
    ensures Inv(p, Init(p, now))
  {
  }

  ghost predicate Names<T>(entries: seq<RowEntry<T>>, i: nat) {
    exists k | 0 <= k < |entries| :: entries[k].index == i
  }

  ghost function One(b: bool): nat { if b then 1 else 0 }

  /** The number of lists of a result that name row `i`. */
  ghost function ListsNaming(r: BatchResult, i: nat): nat {
    One(Names(r.outOfScope, i)) + One(Names(r.affected, i)) + One(Names(r.inconclusive, i))
  }

  ghost predicate NoRepeats<T>(entries: seq<RowEntry<T>>) {
    forall i, j | 0 <= i < j < |entries| :: entries[i].index != entries[j].index
  }

  lemma NamedRow(rows: Rows, lo: nat, hi: nat, k: nat)
    requires Covers(rows, lo, hi) && k < |rows|
    ensures Names(OutOfScopeRows(rows), rows[k].index) <==> rows[k].detail.OutOfScope?
    ensures Names(AffectedRows(rows), rows[k].index) <==> rows[k].detail.Affected?
    ensures Names(InconclusiveRowsOf(rows), rows[k].index) <==> rows[k].detail.Inconclusive?
  {
    SummaryMembers(rows);
    var i := rows[k].index;
    assert forall r | r in rows && r.index == i :: r == rows[k];
    match rows[k].detail {
      case OutOfScope(x) => assert RowEntry(i, x) in OutOfScopeRows(rows);
      case Affected(x) => assert RowEntry(i, x) in AffectedRows(rows);
      case Inconclusive(x) => assert RowEntry(i, x) in InconclusiveRowsOf(rows);
      case Matched(_) =>
    }
    NotNamed(OutOfScopeRows(rows), i);
    NotNamed(AffectedRows(rows), i);
    NotNamed(InconclusiveRowsOf(rows), i);
  }

  lemma NotNamed<T>(entries: seq<RowEntry<T>>, i: nat)
    ensures Names(entries, i) <==> exists e :: e in entries && e.index == i
  {
  }

  /** The record splits its slice: the counts add up to the slice, no list names
      a row twice or a row outside the slice, and a row is named by exactly one
      list unless its outcome was a match, when no list names it. */
  ghost predicate Splits(b: BatchRecord, rows: Rows) {
    && Covers(rows, b.rowStart, b.rowEnd)
    && CountMatched(rows) == b.result.matched
    && b.result.matched + |b.result.outOfScope| + |b.result.affected| + |b.result.inconclusive| == b.Rows()
    && NoRepeats(b.result.outOfScope) && NoRepeats(b.result.affected) && NoRepeats(b.result.inconclusive)
    && (forall k | 0 <= k < |rows| ::
          ListsNaming(b.result, rows[k].index) == One(!rows[k].detail.Matched?))
    && (forall i: nat | i < b.rowStart || i >= b.rowEnd :: ListsNaming(b.result, i) == 0)
  }

  lemma OutsideUnnamed<T>(entries: seq<RowEntry<T>>, lo: nat, hi: nat)
    requires forall e | e in entries :: lo <= e.index < hi
    ensures forall i: nat | i < lo || i >= hi :: !Names(entries, i)
  {
    forall i: nat | i < lo || i >= hi ensures !Names(entries, i) {
      NotNamed(entries, i);
    }
  }

  lemma SummarySplits(b: BatchRecord, rows: Rows)
    requires Covers(rows, b.rowStart, b.rowEnd) && b.result == Summarize(rows)
    ensures Splits(b, rows)
  {
    SummarizePartitions(rows);
    CoversIncreasing(rows, b.rowStart, b.rowEnd);
    SummaryIncreases(rows, b.rowEnd);
    SummaryMembers(rows);
    forall k | 0 <= k < |rows| ensures ListsNaming(b.result, rows[k].index) == One(!rows[k].detail.Matched?) {
      NamedRow(rows, b.rowStart, b.rowEnd, k);
    }
    OutsideUnnamed(b.result.outOfScope, b.rowStart, b.rowEnd);
    OutsideUnnamed(b.result.affected, b.rowStart, b.rowEnd);
    OutsideUnnamed(b.result.inconclusive, b.rowStart, b.rowEnd);
  }

  /** On any run, however deliveries interleave and whatever owners they use:
      a recorded batch splits its slice of the portfolio, each row's outcome is
      one its local pricing allows, and a DONE batch was completed and has no
      transient row left. */
  lemma RowsPartitioned(p: Setup, now: Time, steps: seq<Step>, no: nat)
    requires p.Valid() && no in Run(p, Init(p, now), steps).store.batches
    ensures var w := Run(p, Init(p, now), steps);
            var b := w.store.batches[no];
            && b.rowStart == TileStart(no, p.batchSize) && b.rowEnd == TileEnd(no, p.batchSize, p.rowsInScope)
            && no in w.ledger
            && (b.completedAt.Some? ==>
                  && Splits(b, w.ledger[no])
                  && forall k | 0 <= k < |w.ledger[no]| :: Explained(p.snapshot, p.tolerance, w.ledger[no][k]))
            && (b.state == Done ==> b.completedAt.Some? && forall k | 0 <= k < |w.ledger[no]| :: !Transient(w.ledger[no][k]))
  {
    var w := Run(p, Init(p, now), steps);
    InitSound(p, now);
    RunSound(p, Init(p, now), steps);
    var b := w.store.batches[no];
    assert Sound(p, no, b, w.ledger[no]);
    if b.completedAt.Some? {
      SummarySplits(b, w.ledger[no]);
    }
    if b.state == Done {
      TransientIsListed(b, w.ledger[no]);
    }
  }

  /** What a recorded row says about its policy, on any run: out of scope means the
      wrong product or a date outside the filed period, a comparison is with the
      policy's own premium, and a failed calculation is never a comparison. */
  lemma RecordedRowMeans(p: Setup, now: Time, steps: seq<Step>, no: nat, k: nat)
    requires p.Valid() && no in Run(p, Init(p, now), steps).store.batches
    requires var w := Run(p, Init(p, now), steps);
             w.store.batches[no].completedAt.Some? && no in w.ledger && k < |w.ledger[no]|
    ensures var row := Run(p, Init(p, now), steps).ledger[no][k];
            && row.index == TileStart(no, p.batchSize) + k < |p.snapshot|
            && var (policy, o) := (p.snapshot[row.index], row.detail);
               && (o.OutOfScope? <==>
                     !policy.productMatches || policy.calculation == DateRejected("CALCULATION_DATE_OUT_OF_PERIOD"))
               && (policy.productMatches && policy.calculation == CalculationFailed ==>
                     o == Inconclusive(Problem("LOCAL_CALCULATION_ERROR", false)))
               && (policy.productMatches && policy.calculation.DateRejected? && !o.OutOfScope? ==>
                     o == Inconclusive(Problem(policy.calculation.code, false)))
               && (o.Matched? || o.Affected? ==>
                     && policy.productMatches && policy.calculation == Premium(o.quote.expected)
                     && (o.Matched? <==> -p.tolerance <= o.quote.candidate - o.quote.expected <= p.tolerance))
  {
    var w := Run(p, Init(p, now), steps);
    RowsPartitioned(p, now, steps, no);
    assert Explained(p.snapshot, p.tolerance, w.ledger[no][k]);
  }

  /** A record asks for another attempt exactly when one of its rows is transient. */
  lemma TransientIsListed(b: BatchRecord, rows: Rows)
    requires b.result == Summarize(rows)
    ensures HasTransient(b.result.inconclusive) <==> exists k: nat :: k < |rows| && Transient(rows[k])
  {
    SummaryMembers(rows);
    forall k: nat | k < |rows| && Transient(rows[k]) ensures HasTransient(b.result.inconclusive) {
      assert rows[k] in rows;
      assert RowEntry(rows[k].index, rows[k].detail.problem) in b.result.inconclusive;
    }
    forall i | 0 <= i < |b.result.inconclusive| && b.result.inconclusive[i].detail.transient
      ensures exists k: nat :: k < |rows| && Transient(rows[k])
    {
      var e := b.result.inconclusive[i];
      assert e in InconclusiveRowsOf(rows);
      var k: nat :| k < |rows| && rows[k] == RowEntry(e.index, Inconclusive(e.detail));
      assert Transient(rows[k]);
    }
  }
}

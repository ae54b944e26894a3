/** One attempt at a batch (`backend/app/impact/processor.py`): the first pass
    prices every row of the slice, a re-attempt prices only the rows that failed
    transiently and merges them into the retained result. */
module Processor {
  import opened ImpactModels
  import opened Sorting
  import opened RowOutcomes
  import opened ImpactStore

  predicate NatLeq(a: nat, b: nat) { a <= b }

  function Range(lo: nat, hi: nat): seq<nat>
    requires lo <= hi
  {
    if lo == hi then [] else Range(lo, hi - 1) + [hi - 1]
  }

  function UnresolvedTransient(entries: seq<RowEntry<Problem>>): seq<nat> {
    if entries == [] then []
    else
      var last := entries[|entries| - 1];
      var before := UnresolvedTransient(entries[..|entries| - 1]);
      if last.detail.transient then before + [last.index] else before
  }

  function Permanent(entries: seq<RowEntry<Problem>>): seq<RowEntry<Problem>> {
    if entries == [] then []
    else
      var last := entries[|entries| - 1];
      var before := Permanent(entries[..|entries| - 1]);
      if last.detail.transient then before else before + [last]
  }

  /** The rows this attempt has to price. */
  function Indexes(batch: BatchRecord): seq<nat>
    requires batch.rowStart <= batch.rowEnd
  {
    if batch.completedAt.None? then Range(batch.rowStart, batch.rowEnd)
    else SortBy(NatLeq, UnresolvedTransient(batch.result.inconclusive))
  }

  /** What the attempt carries over, never recounted. */
  function Retained(batch: BatchRecord): BatchResult {
    if batch.completedAt.None? then NO_RESULT
    else batch.result.(inconclusive := Permanent(batch.result.inconclusive))
  }

  predicate NeedsReply(snapshot: seq<Policy>, i: nat)
    requires i < |snapshot|
  {
    Price(snapshot[i]).Priced?
  }

  /** Every row exists, and every row that has to be quoted was answered. */
  ghost predicate Answerable(snapshot: seq<Policy>, replies: map<nat, RemoteOutcome>, indexes: seq<nat>) {
    forall k | 0 <= k < |indexes| ::
      indexes[k] < |snapshot| && (NeedsReply(snapshot, indexes[k]) ==> indexes[k] in replies)
  }

  function Outcome(snapshot: seq<Policy>, replies: map<nat, RemoteOutcome>, tolerance: Money, i: nat): RowOutcome
    requires i < |snapshot| && (NeedsReply(snapshot, i) ==> i in replies)
  {
    match Price(snapshot[i])
    case NotApplicable(reason) => OutOfScope(reason)
    case NotPriceable(code) => Inconclusive(Problem(code, false))
    case Priced(expected) => Compare(expected, replies[i], tolerance)
  }

  /** The indexes that reach the connector, in order. */
  function PendingRows(snapshot: seq<Policy>, indexes: seq<nat>): (r: seq<nat>)
    requires forall k | 0 <= k < |indexes| :: indexes[k] < |snapshot|
    ensures forall k | 0 <= k < |r| :: r[k] in indexes && NeedsReply(snapshot, r[k])
  {
    if indexes == [] then []
    else
      var last := indexes[|indexes| - 1];
      var before := PendingRows(snapshot, indexes[..|indexes| - 1]);
      if NeedsReply(snapshot, last) then before + [last] else before
  }

  function LocalRows(snapshot: seq<Policy>, indexes: seq<nat>): Rows
    requires forall k | 0 <= k < |indexes| :: indexes[k] < |snapshot|
  {
    if indexes == [] then []
    else
      var last := indexes[|indexes| - 1];
      var before := LocalRows(snapshot, indexes[..|indexes| - 1]);
      if NeedsReply(snapshot, last) then before
      else before + [RowEntry(last, Outcome(snapshot, map[], 0.0, last))]
  }

  function RemoteRows(
      snapshot: seq<Policy>, replies: map<nat, RemoteOutcome>, tolerance: Money, pending: seq<nat>): Rows
    requires Answerable(snapshot, replies, pending)
  {
    if pending == [] then []
    else
      var last := pending[|pending| - 1];
      RemoteRows(snapshot, replies, tolerance, pending[..|pending| - 1])
      + [RowEntry(last, Outcome(snapshot, replies, tolerance, last))]
  }

  function NewRows(snapshot: seq<Policy>, replies: map<nat, RemoteOutcome>, tolerance: Money, indexes: seq<nat>): Rows
    requires Answerable(snapshot, replies, indexes)
  {
    LocalRows(snapshot, indexes) + RemoteRows(snapshot, replies, tolerance, PendingRows(snapshot, indexes))
  }

  function InRowOrder(r: BatchResult): BatchResult {
    r.(affected := SortBy(IndexLeq<Quote>, r.affected), inconclusive := SortBy(IndexLeq<Problem>, r.inconclusive))
  }

  /** The result an attempt writes, as a function of the record it leased and the answers it got. */
  function ExecuteResult(
      snapshot: seq<Policy>, batch: BatchRecord, replies: map<nat, RemoteOutcome>, tolerance: Money): BatchResult
    requires batch.rowStart <= batch.rowEnd && Answerable(snapshot, replies, Indexes(batch))
  {
    InRowOrder(Joined(Retained(batch), Summarize(NewRows(snapshot, replies, tolerance, Indexes(batch)))))
  }

  function ResultState(r: BatchResult): BatchState {
    if HasTransient(r.inconclusive) then Incomplete else Done
  }

  // ---- The loops of an attempt -------------------------------------------------

  method PriceLocally(snapshot: seq<Policy>, indexes: seq<nat>) returns (rows: Rows, pending: seq<nat>)
    requires forall k | 0 <= k < |indexes| :: indexes[k] < |snapshot|
    ensures rows == LocalRows(snapshot, indexes) && pending == PendingRows(snapshot, indexes)
  {
    rows, pending := [], [];
    var n := 0;
    while n < |indexes|
      invariant 0 <= n <= |indexes|
      invariant rows == LocalRows(snapshot, indexes[..n]) && pending == PendingRows(snapshot, indexes[..n])
    {
      assert indexes[..n + 1][..n] == indexes[..n];
      var idx := indexes[n];
      match Price(snapshot[idx]) {
        case NotApplicable(reason) => rows := rows + [RowEntry(idx, OutOfScope(reason))];
        case NotPriceable(code) => rows := rows + [RowEntry(idx, Inconclusive(Problem(code, false)))];
        case Priced(_) => pending := pending + [idx];
      }
      n := n + 1;
    }
    assert indexes[..n] == indexes;
  }

  method CompareReplies(
      snapshot: seq<Policy>, replies: map<nat, RemoteOutcome>, tolerance: Money, pending: seq<nat>)
    returns (rows: Rows)
    requires Answerable(snapshot, replies, pending)
    requires forall k | 0 <= k < |pending| :: NeedsReply(snapshot, pending[k])
    ensures rows == RemoteRows(snapshot, replies, tolerance, pending)
  {
    rows := [];
    var n := 0;
    while n < |pending|
      invariant 0 <= n <= |pending|
      invariant rows == RemoteRows(snapshot, replies, tolerance, pending[..n])
    {
      assert pending[..n + 1][..n] == pending[..n];
      var idx := pending[n];
      var row;
      match replies[idx] {
        case Candidate(premium) =>
          var quote := Quote(Price(snapshot[idx]).expected, premium);
          var delta := quote.candidate - quote.expected;
          row := if Abs(delta) > tolerance then Affected(quote) else Matched(quote);
        case RemoteError(code, transient) =>
          row := Inconclusive(Problem(code, transient));
      }
      rows := rows + [RowEntry(idx, row)];
      n := n + 1;
    }
    assert pending[..n] == pending;
  }

  method Collect(retained: BatchResult, rows: Rows) returns (result: BatchResult)
    ensures result == Joined(retained, Summarize(rows))
  {
    result := retained;
    var n := 0;
    while n < |rows|
      invariant 0 <= n <= |rows|
      invariant result == Joined(retained, Summarize(rows[..n]))
    {
      assert rows[..n + 1][..n] == rows[..n];
      var row := rows[n];
      match row.detail {
        case Matched(_) => result := result.(matched := result.matched + 1);
        case OutOfScope(reason) =>
          result := result.(outOfScope := result.outOfScope + [RowEntry(row.index, reason)]);
        case Affected(quote) => result := result.(affected := result.affected + [RowEntry(row.index, quote)]);
        case Inconclusive(problem) =>
          result := result.(inconclusive := result.inconclusive + [RowEntry(row.index, problem)]);
      }
      n := n + 1;
    }
    assert rows[..n] == rows;
  }

  method Execute(snapshot: seq<Policy>, batch: BatchRecord, replies: map<nat, RemoteOutcome>, tolerance: Money)
    returns (result: BatchResult)
    requires batch.rowStart <= batch.rowEnd && Answerable(snapshot, replies, Indexes(batch))
    ensures result == ExecuteResult(snapshot, batch, replies, tolerance)
  {
    var local, pending := PriceLocally(snapshot, Indexes(batch));
    var remote := CompareReplies(snapshot, replies, tolerance, pending);
    var collected := Collect(Retained(batch), local + remote);
    result := InRowOrder(collected);
  }

  datatype BatchOutcome = BatchDone | BatchIncomplete | Duplicate | Closed | Exhausted | LostLease | Crashed

  function RefusedOutcome(result: LeaseResult): BatchOutcome {
    match result
    case AttemptsExhausted => Exhausted
    case AlreadyDone => Duplicate
    case LeasedElsewhere => Duplicate
    case _ => Closed
  }

  /** Which answer to a delivery's lease ends it how. */
  lemma RefusedExactly(result: LeaseResult)
    ensures RefusedOutcome(result) == Duplicate <==> result == AlreadyDone || result == LeasedElsewhere
    ensures RefusedOutcome(result) == Exhausted <==> result == AttemptsExhausted
    ensures RefusedOutcome(result) == Closed <==> result in {NotFound, JobClosed, Acquired}
  {
  }

  /** The part of a delivery after its lease, whatever has happened to the store
      meanwhile: a job that is gone closes the delivery, an attempt that raises
      (`replies` absent) only gives its lease back, and a result is written
      unless the lease has been lost. */
  method WriteBack(
      store: InMemoryImpactStore, key: JobKey, no: nat, owner: Owner, batch: BatchRecord, snapshot: seq<Policy>,
      replies: Option<map<nat, RemoteOutcome>>, tolerance: Money, doneAt: Time)
    returns (outcome: BatchOutcome, ghost result: Option<BatchResult>)
    requires store.Valid()
    requires replies.Some? ==> batch.rowStart <= batch.rowEnd && Answerable(snapshot, replies.value, Indexes(batch))
    modifies store
    ensures store.Valid() && forall other | other != key :: store.View(other) == old(store.View(other))
    ensures old(store.View(key)).job.None? ==> outcome == Closed && store.View(key) == old(store.View(key))
    ensures old(store.View(key)).job.Some? && replies.None? ==>
              && outcome == Crashed
              && store.View(key) == CompleteStep(old(store.View(key)), no, owner, None, Incomplete, doneAt).0
    ensures old(store.View(key)).job.Some? && replies.Some? ==>
              && result == Some(ExecuteResult(snapshot, batch, replies.value, tolerance))
              && store.View(key)
                 == CompleteStep(old(store.View(key)), no, owner, result, ResultState(result.value), doneAt).0
              && outcome == (if !HoldsLease(old(store.View(key)), no, owner) then LostLease
                             else if HasTransient(result.value.inconclusive) then BatchIncomplete else BatchDone)
  {
    result := None;
    if key !in store.jobs {
      return Closed, result;
    }
    if replies.None? {
      var _ := store.CompleteBatch(key, no, owner, None, Incomplete, doneAt);
      return Crashed, result;
    }
    var computed := Execute(snapshot, batch, replies.value, tolerance);
    result := Some(computed);
    var state := if HasTransient(computed.inconclusive) then Incomplete else Done;
    var written := store.CompleteBatch(key, no, owner, Some(computed), state, doneAt);
    outcome := if !written then LostLease else if state == Done then BatchDone else BatchIncomplete;
  }

  /** A whole delivery with nothing in between: a refused one changes nothing, and
      one that is granted its lease still holds it when it writes back. */
  method Process(
      store: InMemoryImpactStore, key: JobKey, no: nat, owner: Owner, leaseTime: nat, maxAttempts: nat,
      snapshot: seq<Policy>, replies: Option<map<nat, RemoteOutcome>>, tolerance: Money, leasedAt: Time, doneAt: Time)
    returns (outcome: BatchOutcome, ghost leased: LeaseReply, ghost result: Option<BatchResult>)
    requires store.Valid()
    requires no in store.View(key).batches && replies.Some? ==>
               var b := store.View(key).batches[no];
               b.rowStart <= b.rowEnd && Answerable(snapshot, replies.value, Indexes(b))
    modifies store
    ensures store.Valid()
    ensures leased == LeaseStep(old(store.View(key)), no, owner, leaseTime, maxAttempts, leasedAt)
    ensures leased.result != Acquired ==>
              store.View(key) == old(store.View(key)) && outcome == RefusedOutcome(leased.result)
    ensures leased.result == Acquired && replies.None? ==>
              && outcome == Crashed
              && store.View(key) == CompleteStep(leased.after, no, owner, None, Incomplete, doneAt).0
    ensures leased.result == Acquired && replies.Some? ==>
              && result.Some?
              && result.value == ExecuteResult(snapshot, old(store.View(key)).batches[no], replies.value, tolerance)
              && outcome == (if HasTransient(result.value.inconclusive) then BatchIncomplete else BatchDone)
              && store.View(key)
                 == CompleteStep(leased.after, no, owner, result, ResultState(result.value), doneAt).0
  {
    leased, result := LeaseStep(store.View(key), no, owner, leaseTime, maxAttempts, leasedAt), None;
    var got, batch := store.LeaseBatch(key, no, owner, leaseTime, maxAttempts, leasedAt);
    if got != Acquired {
      return RefusedOutcome(got), leased, result;
    }
    assert HoldsLease(store.View(key), no, owner);
    ghost var before := old(store.View(key)).batches[no];
    SameAttempt(snapshot, before, batch.value, replies, tolerance);
    outcome, result := WriteBack(store, key, no, owner, batch.value, snapshot, replies, tolerance, doneAt);
  }

  /** Leasing a record changes nothing an attempt computes from it. */
  lemma SameAttempt(
      snapshot: seq<Policy>, a: BatchRecord, b: BatchRecord, replies: Option<map<nat, RemoteOutcome>>, tolerance: Money)
    requires a.rowStart == b.rowStart && a.rowEnd == b.rowEnd && a.result == b.result && a.completedAt == b.completedAt
    requires replies.Some? ==> a.rowStart <= a.rowEnd && Answerable(snapshot, replies.value, Indexes(a))
    ensures replies.Some? ==>
              && Answerable(snapshot, replies.value, Indexes(b))
              && ExecuteResult(snapshot, a, replies.value, tolerance) == ExecuteResult(snapshot, b, replies.value, tolerance)
  {
  }

  // ---- An attempt keeps one outcome per row --------------------------------------

  /** Stands for a row no attempt has priced yet. */
  const UNPRICED := Inconclusive(Problem("UNPRICED", true))

  ghost function UnpricedRows(lo: nat, hi: nat): Rows
    requires lo <= hi
  {
    if lo == hi then [] else UnpricedRows(lo, hi - 1) + [RowEntry(hi - 1, UNPRICED)]
  }

  ghost function TransientIndexes(rows: Rows): seq<nat> {
    if rows == [] then []
    else
      var last := rows[|rows| - 1];
      var before := TransientIndexes(rows[..|rows| - 1]);
      if Transient(last) then before + [last.index] else before
  }

  ghost function SettledRows(rows: Rows): Rows {
    if rows == [] then []
    else
      var last := rows[|rows| - 1];
      var before := SettledRows(rows[..|rows| - 1]);
      if Transient(last) then before else before + [last]
  }

  lemma PrefixAnswerable(snapshot: seq<Policy>, replies: map<nat, RemoteOutcome>, indexes: seq<nat>, n: nat)
    requires Answerable(snapshot, replies, indexes) && n <= |indexes|
    ensures Answerable(snapshot, replies, indexes[..n])
  {
  }

  /** The outcomes after an attempt: transient rows take their new outcome, the rest keep theirs. */
  ghost function Merged(
      snapshot: seq<Policy>, replies: map<nat, RemoteOutcome>, tolerance: Money, rows: Rows): (r: Rows)
    requires Answerable(snapshot, replies, TransientIndexes(rows))
    ensures |r| == |rows|
  {
    if rows == [] then []
    else
      var (init, last) := (rows[..|rows| - 1], rows[|rows| - 1]);
      PrefixAnswerable(snapshot, replies, TransientIndexes(rows), |TransientIndexes(init)|);
      assert TransientIndexes(rows)[..|TransientIndexes(init)|] == TransientIndexes(init);
      Merged(snapshot, replies, tolerance, init)
      + [if Transient(last)
         then
           assert TransientIndexes(rows)[|TransientIndexes(init)|] == last.index;
           RowEntry(last.index, Outcome(snapshot, replies, tolerance, last.index))
         else last]
  }

  /** What an attempt concludes about a row, read off the policy and the connector's reply. */
  lemma OutcomeMeans(snapshot: seq<Policy>, replies: map<nat, RemoteOutcome>, tolerance: Money, i: nat)
    requires i < |snapshot| && (NeedsReply(snapshot, i) ==> i in replies)
    ensures NeedsReply(snapshot, i) <==> snapshot[i].productMatches && snapshot[i].calculation.Premium?
    ensures var (policy, o) := (snapshot[i], Outcome(snapshot, replies, tolerance, i));
            && (o.OutOfScope? <==>
                  !policy.productMatches || policy.calculation == DateRejected("CALCULATION_DATE_OUT_OF_PERIOD"))
            && (o.OutOfScope? ==>
                  o.reason == if policy.productMatches then "OUTSIDE_EFFECTIVE_PERIOD" else "PRODUCT_MISMATCH")
            && (policy.productMatches && policy.calculation == CalculationFailed ==>
                  o == Inconclusive(Problem("LOCAL_CALCULATION_ERROR", false)))
            && (policy.productMatches && policy.calculation.DateRejected? && !o.OutOfScope? ==>
                  o == Inconclusive(Problem(policy.calculation.code, false)))
            && (policy.productMatches && policy.calculation.Premium? && replies[i].RemoteError? ==>
                  o == Inconclusive(Problem(replies[i].code, replies[i].transient)))
            && (o.Matched? || o.Affected? <==>
                  policy.productMatches && policy.calculation.Premium? && replies[i].Candidate?)
            && (o.Matched? || o.Affected? ==>
                  && policy.calculation == Premium(o.quote.expected) && replies[i] == Candidate(o.quote.candidate)
                  && (o.Matched? <==> -tolerance <= o.quote.candidate - o.quote.expected <= tolerance))
  {
  }

  lemma {:induction false} MergedRow(
      snapshot: seq<Policy>, replies: map<nat, RemoteOutcome>, tolerance: Money, rows: Rows, k: nat)
    requires Answerable(snapshot, replies, TransientIndexes(rows)) && k < |rows|
    ensures var r := Merged(snapshot, replies, tolerance, rows)[k];
            if Transient(rows[k])
            then rows[k].index in TransientIndexes(rows)
              && r == RowEntry(rows[k].index, Outcome(snapshot, replies, tolerance, rows[k].index))
            else r == rows[k]
  {
    var n := |rows| - 1;
    assert TransientIndexes(rows)[..|TransientIndexes(rows[..n])|] == TransientIndexes(rows[..n]);
    PrefixAnswerable(snapshot, replies, TransientIndexes(rows), |TransientIndexes(rows[..n])|);
    if k < n {
      MergedRow(snapshot, replies, tolerance, rows[..n], k);
      assert rows[..n][k] == rows[k];
    } else if Transient(rows[n]) {
      assert TransientIndexes(rows)[|TransientIndexes(rows[..n])|] == rows[n].index;
    }
  }

  ghost predicate IncreasingNats(t: seq<nat>, hi: nat) {
    && (forall i | 0 <= i < |t| :: t[i] < hi)
    && (forall i, j | 0 <= i < j < |t| :: t[i] < t[j])
  }

  lemma {:induction false} TransientIndexesIncrease(rows: Rows, hi: nat)
    requires Increasing(rows, hi)
    ensures IncreasingNats(TransientIndexes(rows), hi)
  {
    if rows != [] {
      var n := |rows| - 1;
      TransientIndexesIncrease(rows[..n], rows[n].index);
      assert rows[n].index < hi;
    }
  }

  lemma LocalSnoc(snapshot: seq<Policy>, init: seq<nat>, last: nat)
    requires forall k | 0 <= k < |init| :: init[k] < |snapshot|
    requires last < |snapshot|
    ensures PendingRows(snapshot, init + [last])
         == if NeedsReply(snapshot, last) then PendingRows(snapshot, init) + [last] else PendingRows(snapshot, init)
    ensures LocalRows(snapshot, init + [last])
         == if NeedsReply(snapshot, last) then LocalRows(snapshot, init)
            else LocalRows(snapshot, init) + [RowEntry(last, Outcome(snapshot, map[], 0.0, last))]
  {
    assert (init + [last])[..|init|] == init;
  }

  lemma RemoteSnoc(snapshot: seq<Policy>, replies: map<nat, RemoteOutcome>, tolerance: Money, p: seq<nat>, last: nat)
    requires Answerable(snapshot, replies, p + [last]) && Answerable(snapshot, replies, p)
    requires last < |snapshot| && (NeedsReply(snapshot, last) ==> last in replies)
    ensures RemoteRows(snapshot, replies, tolerance, p + [last])
         == RemoteRows(snapshot, replies, tolerance, p) + [RowEntry(last, Outcome(snapshot, replies, tolerance, last))]
  {
    assert (p + [last])[..|p|] == p;
  }

  lemma AnswerableSnoc(snapshot: seq<Policy>, replies: map<nat, RemoteOutcome>, init: seq<nat>, last: nat)
    requires Answerable(snapshot, replies, init + [last])
    ensures Answerable(snapshot, replies, init)
    ensures last < |snapshot| && (NeedsReply(snapshot, last) ==> last in replies)
  {
    assert (init + [last])[..|init|] == init;
    assert (init + [last])[|init|] == last;
    PrefixAnswerable(snapshot, replies, init + [last], |init|);
  }

  lemma NewRowsSnoc(
      snapshot: seq<Policy>, replies: map<nat, RemoteOutcome>, tolerance: Money, init: seq<nat>, last: nat)
    requires Answerable(snapshot, replies, init + [last]) && Answerable(snapshot, replies, init)
    requires last < |snapshot| && (NeedsReply(snapshot, last) ==> last in replies)
    ensures multiset(NewRows(snapshot, replies, tolerance, init + [last]))
         == multiset(NewRows(snapshot, replies, tolerance, init))
            + multiset{RowEntry(last, Outcome(snapshot, replies, tolerance, last))}
  {
    var local := LocalRows(snapshot, init);
    var remote := RemoteRows(snapshot, replies, tolerance, PendingRows(snapshot, init));
    var row := RowEntry(last, Outcome(snapshot, replies, tolerance, last));
    LocalSnoc(snapshot, init, last);
    AddedToEither(local, remote, row);
    if NeedsReply(snapshot, last) {
      RemoteSnoc(snapshot, replies, tolerance, PendingRows(snapshot, init), last);
      assert NewRows(snapshot, replies, tolerance, init + [last]) == local + (remote + [row]);
    } else {
      assert NewRows(snapshot, replies, tolerance, init + [last]) == (local + [row]) + remote;
    }
  }

  lemma AddedToEither(a: Rows, b: Rows, row: RowEntry<RowOutcome>)
    ensures multiset((a + [row]) + b) == multiset(a + b) + multiset{row}
    ensures multiset(a + (b + [row])) == multiset(a + b) + multiset{row}
  {
  }

  /** The rows of an attempt are the rows it kept and the rows it priced, rearranged. */
  lemma {:induction false} MergedContents(
      snapshot: seq<Policy>, replies: map<nat, RemoteOutcome>, tolerance: Money, rows: Rows)
    requires Answerable(snapshot, replies, TransientIndexes(rows))
    ensures multiset(Merged(snapshot, replies, tolerance, rows))
         == multiset(SettledRows(rows) + NewRows(snapshot, replies, tolerance, TransientIndexes(rows)))
  {
    if rows != [] {
      var n := |rows| - 1;
      var (init, last) := (rows[..n], rows[n]);
      var t := TransientIndexes(init);
      assert TransientIndexes(rows)[..|t|] == t;
      PrefixAnswerable(snapshot, replies, TransientIndexes(rows), |t|);
      MergedContents(snapshot, replies, tolerance, init);
      MergedSnoc(snapshot, replies, tolerance, rows);
    }
  }

  lemma MergedSnoc(snapshot: seq<Policy>, replies: map<nat, RemoteOutcome>, tolerance: Money, rows: Rows)
    requires Answerable(snapshot, replies, TransientIndexes(rows)) && rows != []
    requires Answerable(snapshot, replies, TransientIndexes(rows[..|rows| - 1]))
    requires var init := rows[..|rows| - 1];
             multiset(Merged(snapshot, replies, tolerance, init))
             == multiset(SettledRows(init) + NewRows(snapshot, replies, tolerance, TransientIndexes(init)))
    ensures multiset(Merged(snapshot, replies, tolerance, rows))
         == multiset(SettledRows(rows) + NewRows(snapshot, replies, tolerance, TransientIndexes(rows)))
  {
    var n := |rows| - 1;
    var (init, last) := (rows[..n], rows[n]);
    var (t, kept) := (TransientIndexes(init), SettledRows(init));
    var priced := NewRows(snapshot, replies, tolerance, t);
    var merged := Merged(snapshot, replies, tolerance, init);
    if Transient(last) {
      AnswerableSnoc(snapshot, replies, t, last.index);
      NewRowsSnoc(snapshot, replies, tolerance, t, last.index);
      var row := RowEntry(last.index, Outcome(snapshot, replies, tolerance, last.index));
      assert Merged(snapshot, replies, tolerance, rows) == merged + [row];
      AddedToNew(merged, kept, priced, NewRows(snapshot, replies, tolerance, t + [last.index]), row);
    } else {
      assert Merged(snapshot, replies, tolerance, rows) == merged + [last];
      AddedToKept(merged, kept, priced, last);
    }
  }

  lemma AddedToNew(merged: Rows, kept: Rows, priced: Rows, more: Rows, row: RowEntry<RowOutcome>)
    requires multiset(merged) == multiset(kept + priced) && multiset(more) == multiset(priced) + multiset{row}
    ensures multiset(merged + [row]) == multiset(kept + more)
  {
  }

  lemma AddedToKept(merged: Rows, kept: Rows, priced: Rows, row: RowEntry<RowOutcome>)
    requires multiset(merged) == multiset(kept + priced)
    ensures multiset(merged + [row]) == multiset((kept + [row]) + priced)
  {
  }

  lemma {:induction false} UnpricedFacts(lo: nat, hi: nat)
    requires lo <= hi
    ensures Covers(UnpricedRows(lo, hi), lo, hi)
    ensures TransientIndexes(UnpricedRows(lo, hi)) == Range(lo, hi)
    ensures SettledRows(UnpricedRows(lo, hi)) == []
  {
    if lo < hi {
      UnpricedFacts(lo, hi - 1);
      assert UnpricedRows(lo, hi)[..hi - lo - 1] == UnpricedRows(lo, hi - 1);
    }
  }

  lemma {:induction false} SettledSummary(rows: Rows)
    ensures Summarize(SettledRows(rows))
         == Summarize(rows).(inconclusive := Permanent(Summarize(rows).inconclusive))
  {
    if rows != [] {
      var n := |rows| - 1;
      SettledSummary(rows[..n]);
      var inc := InconclusiveRowsOf(rows[..n]);
      var kept := SettledRows(rows[..n]);
      if rows[n].detail.Inconclusive? {
        var e := RowEntry(rows[n].index, rows[n].detail.problem);
        assert (inc + [e])[..|inc|] == inc;
      }
      if !Transient(rows[n]) {
        assert (kept + [rows[n]])[..|kept|] == kept;
      }
    }
  }

  lemma {:induction false} UnresolvedRows(rows: Rows)
    ensures UnresolvedTransient(InconclusiveRowsOf(rows)) == TransientIndexes(rows)
  {
    if rows != [] {
      var n := |rows| - 1;
      UnresolvedRows(rows[..n]);
      var inc := InconclusiveRowsOf(rows[..n]);
      if rows[n].detail.Inconclusive? {
        var e := RowEntry(rows[n].index, rows[n].detail.problem);
        assert (inc + [e])[..|inc|] == inc;
      }
    }
  }

  /** Every transient row has an authoritative premium: it failed remotely, not locally. */
  ghost predicate TransientRowsPriced(snapshot: seq<Policy>, rows: Rows) {
    forall k | 0 <= k < |rows| && Transient(rows[k]) ::
      rows[k].index < |snapshot| && NeedsReply(snapshot, rows[k].index)
  }

  /** The outcomes a record had before an attempt started on it. */
  ghost predicate Records(snapshot: seq<Policy>, batch: BatchRecord, rows: Rows) {
    && Covers(rows, batch.rowStart, batch.rowEnd)
    && if batch.completedAt.None? then rows == UnpricedRows(batch.rowStart, batch.rowEnd)
       else batch.result == Summarize(rows) && TransientRowsPriced(snapshot, rows)
  }

  lemma CoversIncreasing(rows: Rows, lo: nat, hi: nat)
    requires Covers(rows, lo, hi)
    ensures Increasing(rows, hi)
  {
  }

  lemma NatOrder(s: seq<nat>)
    requires forall i, j | 0 <= i < j < |s| :: s[i] < s[j]
    ensures Sorted(NatLeq, s)
  {
  }

  lemma AttemptIndexes(snapshot: seq<Policy>, batch: BatchRecord, rows: Rows)
    requires Records(snapshot, batch, rows)
    ensures Indexes(batch) == TransientIndexes(rows)
    ensures Retained(batch) == Summarize(SettledRows(rows))
  {
    CoversIncreasing(rows, batch.rowStart, batch.rowEnd);
    if batch.completedAt.None? {
      UnpricedFacts(batch.rowStart, batch.rowEnd);
    } else {
      SettledSummary(rows);
      UnresolvedRows(rows);
      TransientIndexesIncrease(rows, batch.rowEnd);
      NatOrder(TransientIndexes(rows));
      SortByIsIdentity(NatLeq, TransientIndexes(rows));
    }
  }

  lemma {:induction false} LocalRowsOf(snapshot: seq<Policy>, indexes: seq<nat>, hi: nat)
    requires IncreasingNats(indexes, hi) && hi <= |snapshot|
    ensures Increasing(LocalRows(snapshot, indexes), hi)
    ensures (forall k | 0 <= k < |indexes| :: NeedsReply(snapshot, indexes[k])) ==> LocalRows(snapshot, indexes) == []
  {
    if indexes != [] {
      var n := |indexes| - 1;
      LocalRowsOf(snapshot, indexes[..n], indexes[n]);
    }
  }

  lemma {:induction false} RemoteRowsInScope(
      snapshot: seq<Policy>, replies: map<nat, RemoteOutcome>, tolerance: Money, pending: seq<nat>)
    requires Answerable(snapshot, replies, pending)
    requires forall k | 0 <= k < |pending| :: NeedsReply(snapshot, pending[k])
    ensures OutOfScopeRows(RemoteRows(snapshot, replies, tolerance, pending)) == []
  {
    if pending != [] {
      RemoteRowsInScope(snapshot, replies, tolerance, pending[..|pending| - 1]);
    }
  }

  lemma {:induction false} TransientRowIndex(rows: Rows, k: nat) returns (i: nat)
    requires k < |TransientIndexes(rows)|
    ensures i < |rows| && Transient(rows[i]) && rows[i].index == TransientIndexes(rows)[k]
  {
    var n := |rows| - 1;
    if k < |TransientIndexes(rows[..n])| {
      i := TransientRowIndex(rows[..n], k);
    } else {
      i := n;
    }
  }

  lemma NewOutOfScope(
      snapshot: seq<Policy>, replies: map<nat, RemoteOutcome>, tolerance: Money, indexes: seq<nat>, hi: nat)
    requires Answerable(snapshot, replies, indexes)
    requires IncreasingNats(indexes, hi) && hi <= |snapshot|
    ensures var found := OutOfScopeRows(NewRows(snapshot, replies, tolerance, indexes));
            && Increasing(found, hi)
            && ((forall k | 0 <= k < |indexes| :: NeedsReply(snapshot, indexes[k])) ==> found == [])
  {
    var local := LocalRows(snapshot, indexes);
    var remote := RemoteRows(snapshot, replies, tolerance, PendingRows(snapshot, indexes));
    LocalRowsOf(snapshot, indexes, hi);
    SummarizeConcat(local, remote);
    RemoteRowsInScope(snapshot, replies, tolerance, PendingRows(snapshot, indexes));
    SummaryIncreases(local, hi);
    assert Summarize(local + remote).outOfScope == OutOfScopeRows(local) + [];
  }

  /** Out-of-scope rows are only ever found on the first pass, so appending them keeps row order. */
  lemma OutOfScopeOrder(
      snapshot: seq<Policy>, batch: BatchRecord, rows: Rows, replies: map<nat, RemoteOutcome>, tolerance: Money)
    requires Records(snapshot, batch, rows) && Answerable(snapshot, replies, Indexes(batch))
    requires batch.rowEnd <= |snapshot|
    ensures Increasing(Retained(batch).outOfScope
                       + OutOfScopeRows(NewRows(snapshot, replies, tolerance, Indexes(batch))), batch.rowEnd)
  {
    var idx := Indexes(batch);
    AttemptIndexes(snapshot, batch, rows);
    CoversIncreasing(rows, batch.rowStart, batch.rowEnd);
    TransientIndexesIncrease(rows, batch.rowEnd);
    NewOutOfScope(snapshot, replies, tolerance, idx, batch.rowEnd);
    var found := OutOfScopeRows(NewRows(snapshot, replies, tolerance, idx));
    if batch.completedAt.Some? {
      forall k | 0 <= k < |idx| ensures NeedsReply(snapshot, idx[k]) {
        var i := TransientRowIndex(rows, k);
      }
      SummaryIncreases(rows, batch.rowEnd);
      assert Retained(batch).outOfScope + found == OutOfScopeRows(rows);
    } else {
      assert Retained(batch).outOfScope + found == found;
    }
  }

  lemma SameOrder<T(!new)>(a: seq<RowEntry<T>>, b: seq<RowEntry<T>>, hi: nat)
    requires Increasing(b, hi) && multiset(a) == multiset(b)
    ensures SortBy(IndexLeq<T>, a) == b
    ensures Increasing(a, hi) ==> a == b
  {
    IncreasingIsSorted(b, hi);
    SortByForgetsOrder(IndexLeq<T>, a, b);
    if Increasing(a, hi) {
      IncreasingIsSorted(a, hi);
      SortedUnique(IndexLeq<T>, b, a);
    }
  }

  lemma MergedCovers(
      snapshot: seq<Policy>, replies: map<nat, RemoteOutcome>, tolerance: Money, rows: Rows, lo: nat, hi: nat)
    requires Answerable(snapshot, replies, TransientIndexes(rows)) && Covers(rows, lo, hi)
    ensures Covers(Merged(snapshot, replies, tolerance, rows), lo, hi)
  {
    forall k | 0 <= k < |rows| ensures Merged(snapshot, replies, tolerance, rows)[k].index == lo + k {
      MergedRow(snapshot, replies, tolerance, rows, k);
    }
  }

  /** The checkpoint an attempt writes condenses one outcome per row of the
      slice: transient rows take the outcome of the new attempt, all others keep
      theirs, and none is counted twice or dropped. */
  lemma ExecuteMerges(
      snapshot: seq<Policy>, batch: BatchRecord, rows: Rows, replies: map<nat, RemoteOutcome>, tolerance: Money)
    requires Records(snapshot, batch, rows) && Answerable(snapshot, replies, Indexes(batch))
    requires batch.rowEnd <= |snapshot|
    ensures Indexes(batch) == TransientIndexes(rows)
    ensures ExecuteResult(snapshot, batch, replies, tolerance)
         == Summarize(Merged(snapshot, replies, tolerance, rows))
    ensures Covers(Merged(snapshot, replies, tolerance, rows), batch.rowStart, batch.rowEnd)
  {
    AttemptIndexes(snapshot, batch, rows);
    var (hi, idx) := (batch.rowEnd, Indexes(batch));
    var merged := Merged(snapshot, replies, tolerance, rows);
    var priced := NewRows(snapshot, replies, tolerance, idx);
    MergedCovers(snapshot, replies, tolerance, rows, batch.rowStart, hi);
    MergedContents(snapshot, replies, tolerance, rows);
    SummarizePermuted(merged, SettledRows(rows) + priced);
    SummarizeConcat(SettledRows(rows), priced);
    var joined := Joined(Retained(batch), Summarize(priced));
    assert SameContents(Summarize(merged), joined);
    CoversIncreasing(merged, batch.rowStart, hi);
    SummaryIncreases(merged, hi);
    OutOfScopeOrder(snapshot, batch, rows, replies, tolerance);
    SameOrder(joined.outOfScope, OutOfScopeRows(merged), hi);
    SameOrder(joined.affected, AffectedRows(merged), hi);
    SameOrder(joined.inconclusive, InconclusiveRowsOf(merged), hi);
  }
}

/** Range-lookup rate tables and their ambiguity and coverage checks (`backend/app/ipir/tables.py`). */
module RangeTables {
  import opened ImpactModels
  import opened Sorting

  datatype RangeMatch = RangeMatch(
    minimum: Option<real>, maximum: Option<real>, includeMinimum: bool, includeMaximum: bool)
  {
    /** What the record itself refuses: no bound at all, or bounds the wrong way round. */
    predicate Valid() {
      && (minimum.Some? || maximum.Some?)
      && (minimum.Some? && maximum.Some? ==> minimum.value <= maximum.value)
    }

    predicate Contains(x: real) {
      && (minimum.Some? ==> minimum.value < x || (minimum.value == x && includeMinimum))
      && (maximum.Some? ==> x < maximum.value || (maximum.value == x && includeMaximum))
    }

    /** Only a single excluded point is empty. */
    predicate NonEmpty() {
      minimum.None? || maximum.None? || minimum.value < maximum.value || (includeMinimum && includeMaximum)
    }
  }

  datatype Bound = NegInfinity | Finite(value: real) | PosInfinity

  predicate Below(a: Bound, b: Bound) {
    match (a, b)
    case (Finite(x), Finite(y)) => x < y
    case (NegInfinity, _) => b != NegInfinity
    case (_, PosInfinity) => a != PosInfinity
    case _ => false
  }

  datatype Bounds = Bounds(low: Bound, high: Bound)

  function RangeBounds(m: RangeMatch): Bounds {
    Bounds(if m.minimum.Some? then Finite(m.minimum.value) else NegInfinity,
           if m.maximum.Some? then Finite(m.maximum.value) else PosInfinity)
  }

  predicate RangesOverlap(a: RangeMatch, b: RangeMatch) {
    var (p, q) := (RangeBounds(a), RangeBounds(b));
    if Below(p.high, q.low) || (p.high == q.low && !(a.includeMaximum && b.includeMinimum)) then false
    else if Below(q.high, p.low) || (q.high == p.low && !(b.includeMaximum && a.includeMinimum)) then false
    else true
  }

  datatype Match = Exact | Range(range: RangeMatch)
  datatype TableRow = TableRow(matched: Match, priority: Option<int>)
  datatype RangeRow = RangeRow(range: RangeMatch, priority: Option<int>)
  datatype RateTable = RateTable(
    oneRangeDimension: bool, rows: seq<TableRow>, requiresTotalCoverage: bool, defaultValue: Option<Money>)

  datatype Issue = Ambiguous(i: nat, j: nat) | Gap(prevHigh: Bound, nextLow: Bound)

  function RangeRows(rows: seq<TableRow>): seq<RangeRow> {
    if rows == [] then []
    else
      var (before, last) := (RangeRows(rows[..|rows| - 1]), rows[|rows| - 1]);
      if last.matched.Range? then before + [RangeRow(last.matched.range, last.priority)] else before
  }

  predicate Ranked(a: RangeRow, b: RangeRow) {
    a.priority.Some? && b.priority.Some? && a.priority != b.priority
  }

  predicate Clash(rows: seq<RangeRow>, i: nat, j: nat)
    requires i < |rows| && j < |rows|
  {
    RangesOverlap(rows[i].range, rows[j].range) && !Ranked(rows[i], rows[j])
  }

  predicate LowLeq(a: Bounds, b: Bounds) { !Below(b.low, a.low) }

  function AllBounds(rows: seq<RangeRow>): (r: seq<Bounds>)
    ensures |r| == |rows| && forall k | 0 <= k < |r| :: r[k] == RangeBounds(rows[k].range)
  {
    seq(|rows|, k requires 0 <= k < |rows| => RangeBounds(rows[k].range))
  }

  function ByLow(rows: seq<RangeRow>): seq<Bounds> { SortBy(LowLeq, AllBounds(rows)) }

  predicate GapAt(sorted: seq<Bounds>, k: nat)
    requires k + 1 < |sorted|
  {
    Below(sorted[k].high, sorted[k + 1].low)
  }

  /** Reports exactly the unranked overlaps and, where total coverage is owed,
      exactly the neighbours in order of lower bound that leave a space. */
  method ValidateRangeCoverage(table: RateTable) returns (issues: seq<Issue>)
    ensures !table.oneRangeDimension ==> issues == []
    ensures var rows := RangeRows(table.rows);
            forall i: nat, j: nat :: Ambiguous(i, j) in issues <==>
              table.oneRangeDimension && i < j < |rows| && Clash(rows, i, j)
    ensures var sorted := ByLow(RangeRows(table.rows));
            forall a, b :: Gap(a, b) in issues <==>
              && table.oneRangeDimension && table.requiresTotalCoverage && table.defaultValue.None?
              && exists k: nat :: k + 1 < |sorted| && GapAt(sorted, k) && a == sorted[k].high && b == sorted[k + 1].low
  {
    issues := [];
    if !table.oneRangeDimension {
      return;
    }
    var rows := RangeRows(table.rows);
    var i := 0;
    while i < |rows|
      invariant 0 <= i <= |rows|
      invariant forall issue | issue in issues :: issue.Ambiguous?
      invariant forall a: nat, b: nat :: Ambiguous(a, b) in issues <==> a < i && a < b < |rows| && Clash(rows, a, b)
    {
      var j := i + 1;
      while j < |rows|
        invariant i < j <= |rows|
        invariant forall issue | issue in issues :: issue.Ambiguous?
        invariant forall a: nat, b: nat :: Ambiguous(a, b) in issues <==>
                    (a < i || (a == i && b < j)) && a < b < |rows| && Clash(rows, a, b)
      {
        if RangesOverlap(rows[i].range, rows[j].range) && !Ranked(rows[i], rows[j]) {
          issues := issues + [Ambiguous(i, j)];
        }
        j := j + 1;
      }
      i := i + 1;
    }
    if table.requiresTotalCoverage && table.defaultValue.None? {
      issues := AddGaps(issues, ByLow(rows));
    }
  }

  method AddGaps(before: seq<Issue>, sorted: seq<Bounds>) returns (issues: seq<Issue>)
    requires forall issue | issue in before :: issue.Ambiguous?
    ensures forall i, j :: Ambiguous(i, j) in issues <==> Ambiguous(i, j) in before
    ensures forall a, b :: Gap(a, b) in issues <==>
              exists k: nat :: k + 1 < |sorted| && GapAt(sorted, k) && a == sorted[k].high && b == sorted[k + 1].low
  {
    issues := before;
    var k: nat := 0;
    while k + 1 < |sorted|
      invariant forall i, j :: Ambiguous(i, j) in issues <==> Ambiguous(i, j) in before
      invariant forall a, b :: Gap(a, b) in issues <==>
                  exists m: nat :: m < k && m + 1 < |sorted| && GapAt(sorted, m)
                    && a == sorted[m].high && b == sorted[m + 1].low
    {
      if Below(sorted[k].high, sorted[k + 1].low) {
        issues := issues + [Gap(sorted[k].high, sorted[k + 1].low)];
        assert GapAt(sorted, k);
      }
      k := k + 1;
    }
  }

  // ---- Reports in terms of the table ---------------------------------------------------------

  /** Both rows are ranges, they overlap, and they are not told apart by explicit priorities. */
  predicate Clashing(a: TableRow, b: TableRow) {
    && a.matched.Range? && b.matched.Range? && RangesOverlap(a.matched.range, b.matched.range)
    && (a.priority.None? || b.priority.None? || a.priority.value == b.priority.value)
  }

  ghost predicate ClashingBefore(rows: seq<TableRow>, n: nat, last: TableRow)
    requires n <= |rows|
  {
    exists i: nat :: i < n && Clashing(rows[i], last)
  }

  ghost predicate ClashBefore(rows: seq<RangeRow>, n: nat, last: RangeRow)
    requires n <= |rows|
  {
    exists i: nat :: i < n && RangesOverlap(rows[i].range, last.range) && !Ranked(rows[i], last)
  }

  lemma {:induction false} ClashesWithLast(rows: seq<TableRow>, last: TableRow)
    requires last.matched.Range?
    ensures ClashBefore(RangeRows(rows), |RangeRows(rows)|, RangeRow(last.matched.range, last.priority))
       <==> ClashingBefore(rows, |rows|, last)
  {
    if rows != [] {
      var n := |rows| - 1;
      var (init, r) := (rows[..n], RangeRow(last.matched.range, last.priority));
      ClashesWithLast(init, last);
      var kept := RangeRows(init);
      if ClashingBefore(init, n, last) {
        var i: nat :| i < n && Clashing(init[i], last);
        assert Clashing(rows[i], last);
        var k: nat :| k < |kept| && RangesOverlap(kept[k].range, r.range) && !Ranked(kept[k], r);
        assert RangeRows(rows)[k] == kept[k];
      }
      if rows[n].matched.Range? {
        assert RangeRows(rows)[|kept|] == RangeRow(rows[n].matched.range, rows[n].priority);
      }
    }
  }

  ghost predicate SomeClash(rows: seq<RangeRow>) {
    exists j: nat :: j < |rows| && ClashBefore(rows, j, rows[j])
  }

  ghost predicate SomeClashing(rows: seq<TableRow>) {
    exists j: nat :: j < |rows| && ClashingBefore(rows, j, rows[j])
  }

  lemma SomeClashSnoc(rows: seq<RangeRow>)
    requires rows != []
    ensures var n := |rows| - 1; SomeClash(rows) <==> SomeClash(rows[..n]) || ClashBefore(rows[..n], n, rows[n])
  {
    var n := |rows| - 1;
    assert forall j: nat | j <= n :: ClashBefore(rows[..n], j, rows[j]) <==> ClashBefore(rows, j, rows[j]);
    assert forall j: nat | j < n :: rows[..n][j] == rows[j];
  }

  lemma SomeClashingSnoc(rows: seq<TableRow>)
    requires rows != []
    ensures var n := |rows| - 1; SomeClashing(rows) <==> SomeClashing(rows[..n]) || ClashingBefore(rows[..n], n, rows[n])
  {
    var n := |rows| - 1;
    assert forall j: nat | j <= n :: ClashingBefore(rows[..n], j, rows[j]) <==> ClashingBefore(rows, j, rows[j]);
    assert forall j: nat | j < n :: rows[..n][j] == rows[j];
  }

  lemma {:induction false} ClashCarriesOver(rows: seq<TableRow>)
    ensures SomeClash(RangeRows(rows)) <==> SomeClashing(rows)
  {
    if rows != [] {
      var n := |rows| - 1;
      ClashCarriesOver(rows[..n]);
      SomeClashingSnoc(rows);
      if rows[n].matched.Range? {
        SomeClashSnoc(RangeRows(rows));
        assert RangeRows(rows)[..|RangeRows(rows)| - 1] == RangeRows(rows[..n]);
        ClashesWithLast(rows[..n], rows[n]);
      }
    }
  }

  /** An ambiguity is reported exactly when two range rows of the table overlap
      without priorities that tell them apart, whatever stands between them. */
  lemma AmbiguityReportedExactly(rows: seq<TableRow>)
    ensures !NoClash(RangeRows(rows)) <==> SomeClashing(rows)
  {
    var ranges := RangeRows(rows);
    ClashCarriesOver(rows);
    if !NoClash(ranges) {
      var i: nat, j: nat :| i < j < |ranges| && Clash(ranges, i, j);
      assert ClashBefore(ranges, j, ranges[j]);
    }
    if SomeClash(ranges) {
      var j: nat :| j < |ranges| && ClashBefore(ranges, j, ranges[j]);
      var i: nat :| i < j && RangesOverlap(ranges[i].range, ranges[j].range) && !Ranked(ranges[i], ranges[j]);
      assert Clash(ranges, i, j);
    }
  }

  // ---- Overlap is exact on non-empty ranges ------------------------------------------------

  ghost predicate Share(a: RangeMatch, b: RangeMatch) {
    exists x: real :: a.Contains(x) && b.Contains(x)
  }

  /** A range is well formed when it leaves some value out and some value lies between its bounds. */
  lemma ValidExactly(m: RangeMatch)
    ensures m.Valid() <==> (exists x: real :: !m.Contains(x)) && (exists x: real :: Spans(RangeBounds(m), x))
  {
    if m.Valid() {
      var inside := if m.minimum.Some? then m.minimum.value else m.maximum.value;
      assert Spans(RangeBounds(m), inside);
      assert !m.Contains(if m.minimum.Some? then m.minimum.value - 1.0 else m.maximum.value + 1.0);
    }
  }

  /** Two ranges overlap exactly when each reaches up to the other: it starts
      below the other's end, or at that end when both include the point. */
  lemma OverlapExactlyWhen(a: RangeMatch, b: RangeMatch)
    ensures RangesOverlap(a, b) <==>
              && (a.minimum.None? || b.maximum.None? || a.minimum.value < b.maximum.value
                  || (a.minimum.value == b.maximum.value && a.includeMinimum && b.includeMaximum))
              && (b.minimum.None? || a.maximum.None? || b.minimum.value < a.maximum.value
                  || (b.minimum.value == a.maximum.value && b.includeMinimum && a.includeMaximum))
  {
  }

  /** A value both ranges contain whenever they overlap and neither is empty. */
  function SharedValue(a: RangeMatch, b: RangeMatch): real {
    var low := if a.minimum.None? then b.minimum else if b.minimum.None? then a.minimum
               else if a.minimum.value < b.minimum.value then b.minimum else a.minimum;
    var high := if a.maximum.None? then b.maximum else if b.maximum.None? then a.maximum
                else if a.maximum.value < b.maximum.value then a.maximum else b.maximum;
    if low.None? && high.None? then 0.0
    else if low.None? then high.value - 1.0
    else if high.None? then low.value + 1.0
    else (low.value + high.value) / 2.0
  }

  /** Ranges that share a value are always seen to overlap, and ranges seen to
      overlap share a value exactly when neither is empty: an empty range
      overlaps whatever lies around its excluded point. */
  lemma OverlapIsExact(a: RangeMatch, b: RangeMatch)
    requires a.Valid() && b.Valid()
    ensures Share(a, b) ==> RangesOverlap(a, b)
    ensures RangesOverlap(a, b) ==> (Share(a, b) <==> a.NonEmpty() && b.NonEmpty())
  {
    if a.NonEmpty() && b.NonEmpty() && RangesOverlap(a, b) {
      var x := SharedValue(a, b);
      assert a.Contains(x) && b.Contains(x);
    }
  }

  /** A range that excludes its only point overlaps every range around that point and shares no value with it. */
  lemma EmptyRangeOverlaps(point: real, low: real, high: real)
    requires low < point < high
    ensures var empty := RangeMatch(Some(point), Some(point), true, false);
            var around := RangeMatch(Some(low), Some(high), true, true);
            && empty.Valid() && around.Valid() && !empty.NonEmpty()
            && RangesOverlap(empty, around) && RangesOverlap(around, empty) && !Share(empty, around)
  {
    OverlapIsExact(RangeMatch(Some(point), Some(point), true, false), RangeMatch(Some(low), Some(high), true, true));
  }

  // ---- No reported overlap means no ambiguous lookup ------------------------------------------

  ghost predicate Hits(rows: seq<RangeRow>, x: real, i: nat) {
    i < |rows| && rows[i].range.Contains(x)
  }

  /** No two rows that can match the same value go without distinct explicit priorities. */
  ghost predicate Unambiguous(rows: seq<RangeRow>) {
    forall x: real, i: nat, j: nat | i < j && Hits(rows, x, i) && Hits(rows, x, j) :: Ranked(rows[i], rows[j])
  }

  ghost predicate NoClash(rows: seq<RangeRow>) {
    forall i: nat, j: nat | i < j < |rows| :: !Clash(rows, i, j)
  }

  /** An overlap that involves an empty range, and so no value, is ranked all the same. */
  ghost predicate EmptyOverlapsRanked(rows: seq<RangeRow>) {
    forall i: nat, j: nat | i < j < |rows| && RangesOverlap(rows[i].range, rows[j].range) ::
      (rows[i].range.NonEmpty() && rows[j].range.NonEmpty()) || Ranked(rows[i], rows[j])
  }

  /** With no overlap reported no lookup is ambiguous. On non-empty ranges the
      report is exact; on any ranges it is silent exactly when no lookup is
      ambiguous and the overlaps of empty ranges are ranked as well. */
  lemma AmbiguityCheckIsSound(rows: seq<RangeRow>)
    requires forall i | 0 <= i < |rows| :: rows[i].range.Valid()
    ensures NoClash(rows) ==> Unambiguous(rows)
    ensures (forall i | 0 <= i < |rows| :: rows[i].range.NonEmpty()) && Unambiguous(rows) ==> NoClash(rows)
    ensures NoClash(rows) <==> Unambiguous(rows) && EmptyOverlapsRanked(rows)
  {
    forall i: nat, j: nat | i < j < |rows|
      ensures Share(rows[i].range, rows[j].range) ==> RangesOverlap(rows[i].range, rows[j].range)
    {
      OverlapIsExact(rows[i].range, rows[j].range);
    }
    if NoClash(rows) {
      forall x: real, i: nat, j: nat | i < j && Hits(rows, x, i) && Hits(rows, x, j) ensures Ranked(rows[i], rows[j]) {
        assert !Clash(rows, i, j) && Share(rows[i].range, rows[j].range);
      }
      forall i: nat, j: nat | i < j < |rows| && RangesOverlap(rows[i].range, rows[j].range)
        ensures Ranked(rows[i], rows[j])
      {
        assert !Clash(rows, i, j);
      }
    }
    if Unambiguous(rows) && EmptyOverlapsRanked(rows) {
      forall i: nat, j: nat | i < j < |rows| ensures !Clash(rows, i, j) {
        OverlapIsExact(rows[i].range, rows[j].range);
        if RangesOverlap(rows[i].range, rows[j].range) && rows[i].range.NonEmpty() && rows[j].range.NonEmpty() {
          var x: real :| rows[i].range.Contains(x) && rows[j].range.Contains(x);
          assert Hits(rows, x, i) && Hits(rows, x, j);
        }
      }
    }
  }

  /** Row `i` outranks every other of the first `n` rows that match `x`. */
  ghost predicate Winner(rows: seq<RangeRow>, x: real, i: nat, n: nat) {
    && i < n && Hits(rows, x, i)
    && forall j: nat | j < n && j != i && Hits(rows, x, j) ::
         Ranked(rows[i], rows[j]) && rows[j].priority.value < rows[i].priority.value
  }

  /** So a value that any row matches has exactly one row of highest priority. */
  lemma {:induction false} HighestPriorityIsUnique(rows: seq<RangeRow>, x: real, n: nat) returns (i: nat)
    requires Unambiguous(rows) && n <= |rows| && exists k: nat :: k < n && Hits(rows, x, k)
    ensures Winner(rows, x, i, n) && forall k: nat :: Winner(rows, x, k, n) ==> k == i
  {
    if exists k: nat :: k < n - 1 && Hits(rows, x, k) {
      i := HighestPriorityIsUnique(rows, x, n - 1);
      if Hits(rows, x, n - 1) && rows[n - 1].priority.value > rows[i].priority.value {
        i := n - 1;
      }
    } else {
      i := n - 1;
    }
  }

  // ---- No reported gap means no uncovered value ------------------------------------------------

  predicate AtOrBelow(a: Bound, b: Bound) { !Below(b, a) }

  /** `x` lies in the closure of the range. */
  predicate Spans(b: Bounds, x: real) {
    AtOrBelow(b.low, Finite(x)) && AtOrBelow(Finite(x), b.high)
  }

  ghost predicate Proper(bounds: seq<Bounds>) {
    forall k | 0 <= k < |bounds| ::
      bounds[k].low != PosInfinity && bounds[k].high != NegInfinity && AtOrBelow(bounds[k].low, bounds[k].high)
  }

  ghost predicate ByLowerBound(bounds: seq<Bounds>) {
    forall i, j | 0 <= i < j < |bounds| :: LowLeq(bounds[i], bounds[j])
  }

  lemma LowOrder()
    ensures TotalPreorder(LowLeq)
  {
  }

  lemma ByLowFacts(rows: seq<RangeRow>)
    requires forall i | 0 <= i < |rows| :: rows[i].range.Valid()
    ensures Proper(ByLow(rows)) && ByLowerBound(ByLow(rows))
    ensures forall b :: b in ByLow(rows) <==> b in AllBounds(rows)
  {
    var s, b := ByLow(rows), AllBounds(rows);
    LowOrder();
    SortBySorts(LowLeq, b);
    assert forall e :: e in s <==> e in multiset(s);
    assert forall e :: e in b <==> e in multiset(b);
    forall k | 0 <= k < |s|
      ensures s[k].low != PosInfinity && s[k].high != NegInfinity && AtOrBelow(s[k].low, s[k].high)
    {
      assert s[k] in b;
    }
  }

  /** The rows in order of lower bound: with no gap between neighbours, every
      value that is not below the first row nor above all rows lies in the
      closure of one, although ranges may nest. */
  lemma {:induction false} NeighboursSuffice(sorted: seq<Bounds>, x: real, n: nat) returns (k: nat)
    requires Proper(sorted) && ByLowerBound(sorted) && 0 < n <= |sorted|
    requires forall i: nat | i + 1 < |sorted| :: !GapAt(sorted, i)
    requires AtOrBelow(sorted[0].low, Finite(x))
    requires n == |sorted| || Below(Finite(x), sorted[n].low)
    requires exists m: nat :: m < |sorted| && AtOrBelow(Finite(x), sorted[m].high)
    ensures k < |sorted| && Spans(sorted[k], x)
  {
    if Below(Finite(x), sorted[n - 1].low) {
      k := NeighboursSuffice(sorted, x, n - 1);
    } else if n < |sorted| {
      assert !GapAt(sorted, n - 1);
      k := n - 1;
    } else {
      k :| k < |sorted| && AtOrBelow(Finite(x), sorted[k].high);
      assert k < n - 1 ==> LowLeq(sorted[k], sorted[n - 1]);
    }
  }

  ghost predicate Closed(rows: seq<RangeRow>) {
    forall i | 0 <= i < |rows| :: rows[i].range.includeMinimum && rows[i].range.includeMaximum
  }

  /** With no gap reported, every value from the lowest bound to the highest
      lies in the closure of some row, and in a row itself when all bounds are inclusive. */
  lemma GapCheckIsSound(rows: seq<RangeRow>, x: real, lowest: nat, highest: nat) returns (i: nat)
    requires forall i | 0 <= i < |rows| :: rows[i].range.Valid()
    requires var s := ByLow(rows); forall k: nat | k + 1 < |s| :: !GapAt(s, k)
    requires lowest < |rows| && AtOrBelow(RangeBounds(rows[lowest].range).low, Finite(x))
    requires highest < |rows| && AtOrBelow(Finite(x), RangeBounds(rows[highest].range).high)
    ensures i < |rows| && Spans(RangeBounds(rows[i].range), x)
    ensures Closed(rows) ==> rows[i].range.Contains(x)
  {
    var s, b := ByLow(rows), AllBounds(rows);
    ByLowFacts(rows);
    assert b[lowest] in s && b[highest] in s;
    var l :| 0 <= l < |s| && s[l] == b[lowest];
    var h :| 0 <= h < |s| && s[h] == b[highest];
    assert l > 0 ==> LowLeq(s[0], s[l]);
    var k := NeighboursSuffice(s, x, |s|);
    assert s[k] in b;
    i :| 0 <= i < |b| && b[i] == s[k];
  }

  /** Between the lowest bound of one row and the highest of another. */
  ghost predicate InReach(rows: seq<RangeRow>, x: real) {
    && (exists l: nat :: l < |rows| && AtOrBelow(RangeBounds(rows[l].range).low, Finite(x)))
    && (exists h: nat :: h < |rows| && AtOrBelow(Finite(x), RangeBounds(rows[h].range).high))
  }

  ghost predicate Matched(rows: seq<RangeRow>, x: real) {
    exists i: nat :: Hits(rows, x, i)
  }

  ghost predicate BoundValue(rows: seq<RangeRow>, x: real) {
    exists i: nat :: i < |rows| && (rows[i].range.minimum == Some(x) || rows[i].range.maximum == Some(x))
  }

  /** With no gap reported, every value in reach matches a row if and only if
      every value written as a bound does: only there can rows that exclude the
      point where they touch leave it out. */
  lemma CoveredExactlyWhenBoundsAre(rows: seq<RangeRow>)
    requires forall i | 0 <= i < |rows| :: rows[i].range.Valid()
    requires var s := ByLow(rows); forall k: nat | k + 1 < |s| :: !GapAt(s, k)
    ensures (forall x: real | InReach(rows, x) :: Matched(rows, x))
       <==> (forall x: real | InReach(rows, x) && BoundValue(rows, x) :: Matched(rows, x))
  {
    if forall x: real | InReach(rows, x) && BoundValue(rows, x) :: Matched(rows, x) {
      forall x: real | InReach(rows, x) ensures Matched(rows, x) {
        var l: nat :| l < |rows| && AtOrBelow(RangeBounds(rows[l].range).low, Finite(x));
        var h: nat :| h < |rows| && AtOrBelow(Finite(x), RangeBounds(rows[h].range).high);
        var i := GapCheckIsSound(rows, x, l, h);
        if rows[i].range.Contains(x) {
          assert Hits(rows, x, i);
        } else {
          assert BoundValue(rows, x);
        }
      }
    }
  }

  /** Two rows that touch at a point which both exclude. */
  function TouchingRows(low: real, mid: real, high: real): seq<RangeRow> {
    [RangeRow(RangeMatch(Some(low), Some(mid), true, false), None),
     RangeRow(RangeMatch(Some(mid), Some(high), false, true), None)]
  }

  lemma TouchingRowsHaveNoGap(low: real, mid: real, high: real)
    requires low < mid < high
    ensures var s := ByLow(TouchingRows(low, mid, high)); forall k: nat | k + 1 < |s| :: !GapAt(s, k)
  {
    var b := AllBounds(TouchingRows(low, mid, high));
    SortByIsIdentity(LowLeq, b);
  }

  /** Such a table draws no report, yet the bound where its rows touch is in reach and matches none. */
  lemma TouchingRowsLeaveAPoint(low: real, mid: real, high: real)
    requires low < mid < high
    ensures var rows := TouchingRows(low, mid, high);
            && (forall i | 0 <= i < |rows| :: rows[i].range.Valid())
            && NoClash(rows)
            && (var s := ByLow(rows); forall k: nat | k + 1 < |s| :: !GapAt(s, k))
            && InReach(rows, mid) && BoundValue(rows, mid) && !Matched(rows, mid)
  {
    var rows := TouchingRows(low, mid, high);
    TouchingRowsHaveNoGap(low, mid, high);
    assert InReach(rows, mid) by {
      assert AtOrBelow(RangeBounds(rows[0].range).low, Finite(mid));
      assert AtOrBelow(Finite(mid), RangeBounds(rows[1].range).high);
    }
    assert BoundValue(rows, mid) by { assert rows[0].range.maximum == Some(mid); }
    assert NoClash(rows) by { assert !RangesOverlap(rows[0].range, rows[1].range); }
  }

  // ---- Which reported gaps are real -------------------------------------------------------------

  ghost predicate Uncovered(bounds: seq<Bounds>, x: real) {
    forall m | 0 <= m < |bounds| :: !Spans(bounds[m], x)
  }

  /** Some value between the neighbours is covered by no row at all. */
  ghost predicate RealGap(sorted: seq<Bounds>, k: nat)
    requires k + 1 < |sorted|
  {
    exists x: real :: Below(sorted[k].high, Finite(x)) && Below(Finite(x), sorted[k + 1].low) && Uncovered(sorted, x)
  }

  /** A value above the first `n` upper bounds and below `limit`. */
  lemma {:induction false} ValueBetween(sorted: seq<Bounds>, n: nat, limit: real) returns (x: real)
    requires n <= |sorted| && Proper(sorted)
    requires forall m | 0 <= m < n :: Below(sorted[m].high, Finite(limit))
    ensures x < limit && forall m | 0 <= m < n :: Below(sorted[m].high, Finite(x))
  {
    if n == 0 {
      x := limit - 1.0;
    } else {
      x := ValueBetween(sorted, n - 1, limit);
      if !Below(sorted[n - 1].high, Finite(x)) {
        x := (sorted[n - 1].high.value + limit) / 2.0;
      }
    }
  }

  /** A reported gap is real if and only if no earlier row, in order of lower
      bound, reaches across it: comparing neighbours alone raises false alarms
      exactly where ranges nest. */
  lemma ReportedGapIsReal(sorted: seq<Bounds>, k: nat)
    requires Proper(sorted) && ByLowerBound(sorted) && k + 1 < |sorted| && GapAt(sorted, k)
    ensures RealGap(sorted, k) <==> forall m | 0 <= m < k :: Below(sorted[m].high, sorted[k + 1].low)
  {
    if forall m | 0 <= m < k :: Below(sorted[m].high, sorted[k + 1].low) {
      var x := ValueBetween(sorted, k + 1, sorted[k + 1].low.value);
      forall m | 0 <= m < |sorted| ensures !Spans(sorted[m], x) {
        if m > k + 1 {
          assert LowLeq(sorted[k + 1], sorted[m]);
        }
      }
      assert Uncovered(sorted, x);
    } else {
      var m :| 0 <= m < k && !Below(sorted[m].high, sorted[k + 1].low);
      assert LowLeq(sorted[m], sorted[k]);
      forall x: real | Below(sorted[k].high, Finite(x)) && Below(Finite(x), sorted[k + 1].low)
        ensures !Uncovered(sorted, x)
      {
        assert Spans(sorted[m], x);
      }
    }
  }
}

/** Slicing a portfolio into batches (`backend/app/impact/coordinator.py`, `plan` and the batch specs of `run`). */
module Planning {
  import opened Arithmetic
  import opened ImpactModels
  import opened ImpactStore

  datatype Slicing = Slicing(rowsInScope: nat, batchCount: nat)

  function BatchCount(rows: nat, batchSize: nat): nat
    requires batchSize > 0
  {
    (rows + batchSize - 1) / batchSize
  }

  /** An absent or zero sample limit leaves only the configured row budget. */
  function Slice(rowsTotal: nat, maxPolicies: nat, sampleLimit: Option<nat>, batchSize: nat): Slicing
    requires batchSize > 0
  {
    var cap := if sampleLimit.Some? && sampleLimit.value > 0 then Min(maxPolicies, sampleLimit.value) else maxPolicies;
    var rows := Min(rowsTotal, cap);
    Slicing(rows, BatchCount(rows, batchSize))
  }

  predicate WithinBudget(rows: nat, rowsTotal: nat, maxPolicies: nat, sampleLimit: Option<nat>) {
    rows <= rowsTotal && rows <= maxPolicies && (sampleLimit.Some? && sampleLimit.value > 0 ==> rows <= sampleLimit.value)
  }

  /** A plan covers as many rows as the budgets allow, in just enough batches to hold them. */
  lemma SliceIsLargest(rowsTotal: nat, maxPolicies: nat, sampleLimit: Option<nat>, batchSize: nat, rows: nat)
    requires batchSize > 0
    ensures var s := Slice(rowsTotal, maxPolicies, sampleLimit, batchSize);
            && WithinBudget(s.rowsInScope, rowsTotal, maxPolicies, sampleLimit)
            && (WithinBudget(rows, rowsTotal, maxPolicies, sampleLimit) ==> rows <= s.rowsInScope)
            && s.rowsInScope <= s.batchCount * batchSize < s.rowsInScope + batchSize
  {
    var x := Slice(rowsTotal, maxPolicies, sampleLimit, batchSize).rowsInScope + batchSize - 1;
    var q := Quotient(x, batchSize);
  }

  function TileStart(n: nat, batchSize: nat): nat { n * batchSize }

  function TileEnd(n: nat, batchSize: nat, rows: nat): nat { Min((n + 1) * batchSize, rows) }

  predicate InTile(r: nat, n: nat, batchSize: nat, rows: nat) {
    TileStart(n, batchSize) <= r < TileEnd(n, batchSize, rows)
  }

  function Specs(batchSize: nat, rows: nat, count: nat): (specs: seq<BatchSpec>)
    ensures |specs| == count
    ensures forall n | 0 <= n < count ::
              specs[n] == BatchSpec(n, TileStart(n, batchSize), TileEnd(n, batchSize, rows))
  {
    seq(count, n requires 0 <= n => BatchSpec(n, TileStart(n, batchSize), TileEnd(n, batchSize, rows)))
  }

  lemma TilesFit(rows: nat, batchSize: nat, n: nat)
    requires batchSize > 0
    ensures n < BatchCount(rows, batchSize) <==> TileStart(n, batchSize) < rows
  {
    var (x, q) := (rows + batchSize - 1, BatchCount(rows, batchSize));
    assert q * batchSize <= x < q * batchSize + batchSize;
    if n < q {
      MulMono(n + 1, q, batchSize);
    } else {
      MulMono(q, n, batchSize);
    }
  }

  lemma MultipleInTile(rows: nat, batchSize: nat, r: nat, q: nat)
    requires batchSize > 0 && r < rows && q * batchSize <= r < (q + 1) * batchSize
    ensures q < BatchCount(rows, batchSize) && InTile(r, q, batchSize, rows)
  {
    TilesFit(rows, batchSize, q);
  }

  /** Row `r` lies in tile `r / batchSize` and in no other. */
  lemma TileOfRow(rows: nat, batchSize: nat, r: nat, n: nat)
    requires batchSize > 0
    ensures r < rows ==> r / batchSize < BatchCount(rows, batchSize) && InTile(r, r / batchSize, batchSize, rows)
    ensures InTile(r, n, batchSize, rows) ==> n == r / batchSize
  {
    var q := Quotient(r, batchSize);
    if r < rows {
      MultipleInTile(rows, batchSize, r, q);
    }
    if InTile(r, n, batchSize, rows) {
      OneMultiple(r, batchSize, q, n);
    }
  }

  lemma TileBounds(rows: nat, batchSize: nat, n: nat)
    requires batchSize > 0 && n < BatchCount(rows, batchSize)
    ensures TileStart(n, batchSize) < TileEnd(n, batchSize, rows) <= rows
    ensures n + 1 < BatchCount(rows, batchSize) ==> TileEnd(n, batchSize, rows) == TileStart(n + 1, batchSize)
    ensures n + 1 == BatchCount(rows, batchSize) ==> TileEnd(n, batchSize, rows) == rows
  {
    TilesFit(rows, batchSize, n);
    TilesFit(rows, batchSize, n + 1);
  }

  ghost predicate InSomeTile(r: nat, batchSize: nat, rows: nat)
    requires batchSize > 0
  {
    exists n: nat | n < BatchCount(rows, batchSize) :: InTile(r, n, batchSize, rows)
  }

  /** The batches tile the rows in scope: each is a non-empty slice, each starts
      where the one before ends, and every row lies in exactly one of them. */
  lemma TilesPartitionRows(rows: nat, batchSize: nat)
    requires batchSize > 0
    ensures forall n: nat | n < BatchCount(rows, batchSize) ::
              TileStart(n, batchSize) < TileEnd(n, batchSize, rows) <= rows
    ensures forall r: nat | r < rows :: InSomeTile(r, batchSize, rows)
    ensures forall r: nat, n: nat, m: nat | InTile(r, n, batchSize, rows) && InTile(r, m, batchSize, rows) :: n == m
  {
    forall n: nat | n < BatchCount(rows, batchSize)
      ensures TileStart(n, batchSize) < TileEnd(n, batchSize, rows) <= rows
    {
      TileBounds(rows, batchSize, n);
    }
    forall r: nat | r < rows ensures InSomeTile(r, batchSize, rows)
    {
      TileOfRow(rows, batchSize, r, 0);
    }
    forall r: nat, n: nat, m: nat | InTile(r, n, batchSize, rows) && InTile(r, m, batchSize, rows)
      ensures n == m
    {
      TileOfRow(rows, batchSize, r, n);
      TileOfRow(rows, batchSize, r, m);
    }
  }
}

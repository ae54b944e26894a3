/** Pricing the pending rows of one attempt through the connector: chunked,
    concurrent calls behind a circuit breaker (`backend/app/impact/processor.py`,
    `_remote`), and the client that checks their replies
    (`backend/app/connectors/client.py`). */
module RemotePricing {
  import opened ImpactModels
  import opened Sorting
  import opened RowOutcomes
  import opened Processor
  import opened Resilience
  import opened Arithmetic

  // ---- The client -----------------------------------------------------------------------

  /** What the connector put in the premium output, as far as parsing it goes. */
  datatype RawPremium = Missing | Blank | Malformed | NotFinite | Number(value: Money)

  datatype ItemReply = ItemOk(raw: RawPremium) | ItemError(code: Option<string>)

  /** Rows are identified by their index; the wire form `r<index>` is one-to-one. */
  datatype ItemResult = ItemResult(item: nat, reply: ItemReply)
  datatype BatchResponse = BatchResponse(headerMatches: bool, results: seq<ItemResult>)

  datatype Result<+T> = Ok(value: T) | Error(failure: Failure)

  const BATCH_MAX_ITEMS := 250

  function ParsePremium(raw: RawPremium): RemoteOutcome {
    match raw
    case Missing => RemoteError("CONNECTOR_INCOMPLETE_OUTPUT", false)
    case Blank => RemoteError("CONNECTOR_INCOMPLETE_OUTPUT", false)
    case Malformed => RemoteError("CONNECTOR_INVALID_PREMIUM", false)
    case NotFinite => RemoteError("CONNECTOR_INVALID_PREMIUM", false)
    case Number(value) => Candidate(value)
  }

  function ItemsOf(results: seq<ItemResult>): seq<nat> {
    if results == [] then [] else ItemsOf(results[..|results| - 1]) + [results[|results| - 1].item]
  }

  /** `body` is absent when it does not parse as a batch response. */
  function ParseBatchResponse(sent: seq<nat>, body: Option<BatchResponse>): Result<seq<ItemResult>> {
    if body.None? then Error(Failure("CONNECTOR_SCHEMA_VIOLATION", NonRetryable))
    else if !body.value.headerMatches then Error(Failure("CONNECTOR_REQUEST_ID_MISMATCH", NonRetryable))
    else if SortBy(NatLeq, sent) != SortBy(NatLeq, ItemsOf(body.value.results)) then
      Error(Failure("CONNECTOR_BATCH_ITEM_MISMATCH", NonRetryable))
    else Ok(body.value.results)
  }

  /** The request's own validators. */
  ghost predicate RequestAccepted(items: seq<nat>) {
    1 <= |items| <= BATCH_MAX_ITEMS && Distinct(items)
  }

  lemma {:induction false} ItemsAt(results: seq<ItemResult>)
    ensures |ItemsOf(results)| == |results|
    ensures forall k | 0 <= k < |results| :: ItemsOf(results)[k] == results[k].item
  {
    if results != [] {
      ItemsAt(results[..|results| - 1]);
    }
  }

  lemma SortedSame(a: seq<nat>, b: seq<nat>)
    ensures SortBy(NatLeq, a) == SortBy(NatLeq, b) <==> multiset(a) == multiset(b)
  {
    assert multiset(SortBy(NatLeq, a)) == multiset(a) && multiset(SortBy(NatLeq, b)) == multiset(b);
    if multiset(a) == multiset(b) {
      SortBySorts(NatLeq, a);
      SortBySorts(NatLeq, b);
      SortedUnique(NatLeq, SortBy(NatLeq, a), SortBy(NatLeq, b));
    }
  }

  ghost predicate AnswersOnce(results: seq<ItemResult>, item: nat, k: nat) {
    k < |results| && results[k].item == item && forall j | 0 <= j < |results| && j != k :: results[j].item != item
  }

  ghost predicate OneToOne(sent: seq<nat>, results: seq<ItemResult>) {
    |results| == |sent| && forall i | i in sent :: exists k :: AnswersOnce(results, i, k)
  }

  lemma SameItemsOneToOne(sent: seq<nat>, results: seq<ItemResult>)
    requires Distinct(sent) && multiset(sent) == multiset(ItemsOf(results))
    ensures OneToOne(sent, results)
  {
    var got := ItemsOf(results);
    ItemsAt(results);
    DistinctRearranged(sent, got);
    assert |sent| == |multiset(sent)| == |multiset(got)| == |got|;
    forall i | i in sent ensures exists k :: AnswersOnce(results, i, k) {
      assert i in multiset(got);
      var k: nat :| k < |got| && got[k] == i;
      assert AnswersOnce(results, i, k);
    }
  }

  /** A reply is accepted exactly when its results correspond one-to-one with
      the request: nothing missing, nothing extra, nothing answered twice. */
  lemma ReplyIsBijection(sent: seq<nat>, response: BatchResponse)
    requires Distinct(sent)
    ensures ParseBatchResponse(sent, Some(response)).Ok?
       <==> response.headerMatches && OneToOne(sent, response.results)
  {
    SortedSame(sent, ItemsOf(response.results));
    if multiset(sent) == multiset(ItemsOf(response.results)) {
      SameItemsOneToOne(sent, response.results);
    }
    if OneToOne(sent, response.results) {
      ContainedSameSize(sent, response.results);
    }
  }

  lemma ContainedSameSize(sent: seq<nat>, results: seq<ItemResult>)
    requires Distinct(sent) && OneToOne(sent, results)
    ensures multiset(sent) == multiset(ItemsOf(results))
  {
    var got := ItemsOf(results);
    ItemsAt(results);
    forall i ensures multiset(sent)[i] <= multiset(got)[i] {
      DistinctOnce(sent, i);
      if i in sent {
        var k: nat :| AnswersOnce(results, i, k);
        assert got[k] == i;
      }
    }
    assert multiset(sent) <= multiset(got);
    assert |multiset(got) - multiset(sent)| == 0;
    assert multiset(got) == multiset(sent) + (multiset(got) - multiset(sent));
  }

  /** The result filed under an item; a later result with the same id would replace an earlier one. */
  function ReplyFor(results: seq<ItemResult>, item: nat): Option<ItemReply> {
    if results == [] then None
    else if results[|results| - 1].item == item then Some(results[|results| - 1].reply)
    else ReplyFor(results[..|results| - 1], item)
  }

  lemma {:induction false} ReplyForItem(results: seq<ItemResult>, item: nat)
    ensures ReplyFor(results, item).Some? <==> item in ItemsOf(results)
  {
    if results != [] {
      ReplyForItem(results[..|results| - 1], item);
    }
  }

  /** What is filed under an item is a result that names it. */
  lemma {:induction false} ReplyForSome(results: seq<ItemResult>, item: nat) returns (k: nat)
    requires item in ItemsOf(results)
    ensures k < |results| && results[k].item == item && ReplyFor(results, item) == Some(results[k].reply)
  {
    var n := |results| - 1;
    if results[n].item == item {
      k := n;
    } else {
      k := ReplyForSome(results[..n], item);
    }
  }

  lemma ItemsDistinct(sent: seq<nat>, results: seq<ItemResult>)
    requires Distinct(sent) && ParseBatchResponse(sent, Some(BatchResponse(true, results))).Ok?
    ensures forall j, k | 0 <= j < |results| && 0 <= k < |results| && results[j].item == results[k].item :: j == k
  {
    SortedSame(sent, ItemsOf(results));
    ItemsAt(results);
    DistinctRearranged(sent, ItemsOf(results));
    forall j, k | 0 <= j < |results| && 0 <= k < |results| && results[j].item == results[k].item ensures j == k {
      assert ItemsOf(results)[j] == ItemsOf(results)[k];
    }
  }

  /** In an accepted reply each item gets the very reply that names it. */
  lemma AcceptedAsSent(sent: seq<nat>, results: seq<ItemResult>, k: nat)
    requires Distinct(sent) && ParseBatchResponse(sent, Some(BatchResponse(true, results))).Ok? && k < |results|
    ensures ReplyFor(results, results[k].item) == Some(results[k].reply) && results[k].item in sent
  {
    ItemsAt(results);
    assert ItemsOf(results)[k] == results[k].item;
    var j := ReplyForSome(results, results[k].item);
    ItemsDistinct(sent, results);
    SortedSame(sent, ItemsOf(results));
    assert results[k].item in multiset(ItemsOf(results));
  }

  /** Why a reply is refused, and that a refused one is not worth repeating. */
  lemma RefusedReplies(sent: seq<nat>, body: Option<BatchResponse>)
    ensures var reply := ParseBatchResponse(sent, body);
            && (reply.Error? ==> reply.failure.category == NonRetryable)
            && (body.None? <==> reply.Error? && reply.failure.code == "CONNECTOR_SCHEMA_VIOLATION")
            && (body.Some? && !body.value.headerMatches
                <==> reply.Error? && reply.failure.code == "CONNECTOR_REQUEST_ID_MISMATCH")
            && (body.Some? && body.value.headerMatches && multiset(sent) != multiset(ItemsOf(body.value.results))
                <==> reply.Error? && reply.failure.code == "CONNECTOR_BATCH_ITEM_MISMATCH")
            && (reply.Ok? ==> reply.value == body.value.results)
  {
    if body.Some? {
      SortedSame(sent, ItemsOf(body.value.results));
    }
    assert |"CONNECTOR_SCHEMA_VIOLATION"| == 26 && |"CONNECTOR_REQUEST_ID_MISMATCH"| == 29;
    var (a, b) := ("CONNECTOR_REQUEST_ID_MISMATCH", "CONNECTOR_BATCH_ITEM_MISMATCH");
    assert a[10] != b[10];
  }

  lemma AcceptedHasAll(sent: seq<nat>, body: Option<BatchResponse>)
    requires ParseBatchResponse(sent, body).Ok?
    ensures forall i | i in sent :: ReplyFor(ParseBatchResponse(sent, body).value, i).Some?
  {
    var got := ItemsOf(body.value.results);
    SortedSame(sent, got);
    forall i | i in sent ensures ReplyFor(body.value.results, i).Some? {
      assert i in multiset(got);
      ReplyForItem(body.value.results, i);
    }
  }

  // ---- The client's retry loop ------------------------------------------------------------

  /** What the k-th attempt meets: an exhausted target budget before it, or its reply. */
  datatype Attempt<+T> = OverBudget(failure: Failure) | Tried(reply: Result<T>)

  predicate Retried<T>(a: Attempt<T>) { a.Tried? && a.reply.Error? && a.reply.failure.category == Retryable }

  function Conclusion<T>(a: Attempt<T>): Result<T> {
    match a
    case OverBudget(failure) => Error(failure)
    case Tried(reply) => reply
  }

  /** The first attempt that is not a retryable failure decides, or the last one
      allowed; every attempt before it was counted as one retry. */
  method ExecuteRequest<T>(attempts: nat -> Attempt<T>, maxAttempts: nat)
    returns (reply: Result<T>, retries: seq<string>)
    requires maxAttempts > 0
    ensures |retries| < maxAttempts
    ensures reply == Conclusion(attempts(|retries|))
    ensures forall k: nat | k < |retries| ::
              Retried(attempts(k)) && Conclusion(attempts(k)).failure.code == retries[k]
    ensures |retries| + 1 < maxAttempts ==> !Retried(attempts(|retries|))
  {
    retries := [];
    var attempt: nat := 0;
    while true
      invariant attempt == |retries| < maxAttempts
      invariant forall k: nat | k < |retries| ::
                  Retried(attempts(k)) && Conclusion(attempts(k)).failure.code == retries[k]
      decreases maxAttempts - attempt
    {
      match attempts(attempt) {
        case OverBudget(failure) => return Error(failure), retries;
        case Tried(Ok(value)) => return Ok(value), retries;
        case Tried(Error(failure)) =>
          if failure.category != Retryable || attempt + 1 == maxAttempts {
            return Error(failure), retries;
          }
          retries := retries + [failure.code];
      }
      attempt := attempt + 1;
    }
  }

  // ---- Chunks ---------------------------------------------------------------------------

  /** `batchMax` is the item limit the connector advertised, or 0 for single quotes. */
  function ChunkSize(batchMax: nat, batchSize: nat): (size: nat)
    ensures size > 0 && (batchMax > 0 ==> size <= batchMax) && (batchMax == 0 ==> size == 1)
  {
    if batchMax == 0 then 1
    else
      var least := Min(batchMax, batchSize);
      if least > 1 then least else 1
  }

  /** As large as the connector and the batch size allow, but at least one row. */
  lemma ChunkSizeExactly(batchMax: nat, batchSize: nat)
    ensures batchMax == 0 || batchSize == 0 ==> ChunkSize(batchMax, batchSize) == 1
    ensures batchMax > 0 && batchSize > 0 ==>
              var size := ChunkSize(batchMax, batchSize);
              size <= batchMax && size <= batchSize && (size == batchMax || size == batchSize)
  {
  }

  function Chunks(pending: seq<nat>, size: nat): seq<seq<nat>>
    requires size > 0
  {
    if pending == [] then []
    else if |pending| <= size then [pending]
    else [pending[..size]] + Chunks(pending[size..], size)
  }

  function Flat(chunks: seq<seq<nat>>): seq<nat> {
    if chunks == [] then [] else chunks[0] + Flat(chunks[1..])
  }

  /** The chunks tile the pending rows in order, each non-empty and within the limit. */
  lemma {:induction false} ChunksTile(pending: seq<nat>, size: nat)
    requires size > 0
    ensures Flat(Chunks(pending, size)) == pending
    ensures forall c | 0 <= c < |Chunks(pending, size)| :: 1 <= |Chunks(pending, size)[c]| <= size
    ensures forall c | 0 <= c < |Chunks(pending, size)| - 1 :: |Chunks(pending, size)[c]| == size
  {
    if pending != [] {
      if |pending| <= size {
        assert Flat([pending]) == pending + Flat([]);
      } else {
        ChunksTile(pending[size..], size);
        var rest := Chunks(pending[size..], size);
        assert ([pending[..size]] + rest)[1..] == rest;
        assert pending == pending[..size] + pending[size..];
      }
    }
  }

  lemma {:induction false} ChunkWithin(chunks: seq<seq<nat>>, c: nat)
    requires c < |chunks|
    ensures multiset(chunks[c]) <= multiset(Flat(chunks))
  {
    if c > 0 {
      ChunkWithin(chunks[1..], c - 1);
    }
  }

  lemma DistinctWithin(small: seq<nat>, big: seq<nat>)
    requires multiset(small) <= multiset(big) && Distinct(big)
    ensures Distinct(small)
  {
    forall i, j | 0 <= i < j < |small| ensures small[i] != small[j] {
      DistinctOnce(big, small[i]);
      if small[i] == small[j] {
        RepeatedTwice(small, i, j);
      }
    }
  }

  /** No chunk is refused by the request validators or exceeds what the connector advertised. */
  lemma ChunksAreAccepted(pending: seq<nat>, batchMax: nat, batchSize: nat, c: nat)
    requires Distinct(pending) && batchMax <= 250
    requires c < |Chunks(pending, ChunkSize(batchMax, batchSize))|
    ensures var chunk := Chunks(pending, ChunkSize(batchMax, batchSize))[c];
            RequestAccepted(chunk) && 1 <= |chunk| <= 250 && Distinct(chunk) && (batchMax > 0 ==> |chunk| <= batchMax)
  {
    var size := ChunkSize(batchMax, batchSize);
    ChunksTile(pending, size);
    ChunkWithin(Chunks(pending, size), c);
    DistinctWithin(Chunks(pending, size)[c], pending);
  }

  // ---- Concurrent chunk calls ---------------------------------------------------------------

  datatype Phase = Waiting | Sent | Finished

  /** `log` is history: every row an outcome was filed for, in the order of filing. */
  datatype Remote = Remote(
    chunks: seq<seq<nat>>, phases: seq<Phase>, breaker: Breaker,
    results: map<nat, RemoteOutcome>, log: seq<nat>)

  /** A call either fails in the client or brings back a body. */
  datatype Exchange = NoReply(failure: Failure) | Body(body: Option<BatchResponse>)

  /** A chunk passes the cancellation check and the breaker in one go; its
      exchange ends later, with any other chunk's steps in between. */
  datatype Action =
    | Admit(chunk: nat, cancelled: bool, at: Instant)
    | Settle(chunk: nat, exchange: Exchange, at: Instant)

  function Start(pending: seq<nat>, size: nat): Remote
    requires size > 0
  {
    var chunks := Chunks(pending, size);
    Remote(chunks, seq(|chunks|, _ => Waiting), CLOSED, map[], [])
  }

  function Filled(results: map<nat, RemoteOutcome>, rows: seq<nat>, outcome: nat -> RemoteOutcome): map<nat, RemoteOutcome> {
    if rows == [] then results
    else
      var i := rows[|rows| - 1];
      Filled(results, rows[..|rows| - 1], outcome)[i := outcome(i)]
  }

  function Conclude(r: Remote, c: nat, outcome: nat -> RemoteOutcome): Remote
    requires c < |r.chunks| == |r.phases|
  {
    r.(phases := r.phases[c := Finished], results := Filled(r.results, r.chunks[c], outcome),
       log := r.log + r.chunks[c])
  }

  function Same(code: string, transient: bool): nat -> RemoteOutcome {
    (i: nat) => RemoteError(code, transient)
  }

  function ReplyOf(rows: seq<nat>, exchange: Exchange): Result<seq<ItemResult>> {
    match exchange
    case NoReply(failure) => Error(failure)
    case Body(body) => ParseBatchResponse(rows, body)
  }

  function ItemOutcome(reply: ItemReply): RemoteOutcome {
    match reply
    case ItemOk(raw) => ParsePremium(raw)
    case ItemError(given) =>
      var code := if given.Some? then given.value else "ITEM_ERROR";
      RemoteError("CONNECTOR_ITEM_" + code, code in TRANSIENT_ITEM_CODES)
  }

  /** A row is priced exactly by a number; anything else is an error, and only
      the two passing item errors are transient. */
  lemma ItemOutcomeMeans(reply: ItemReply)
    ensures forall v :: ItemOutcome(reply) == Candidate(v) <==> reply == ItemOk(Number(v))
    ensures reply == ItemOk(Missing) || reply == ItemOk(Blank) ==>
              ItemOutcome(reply) == RemoteError("CONNECTOR_INCOMPLETE_OUTPUT", false)
    ensures reply == ItemOk(Malformed) || reply == ItemOk(NotFinite) ==>
              ItemOutcome(reply) == RemoteError("CONNECTOR_INVALID_PREMIUM", false)
    ensures reply == ItemError(None) ==> ItemOutcome(reply) == RemoteError("CONNECTOR_ITEM_ITEM_ERROR", false)
    ensures reply.ItemError? && reply.code.Some? ==>
              ItemOutcome(reply) == RemoteError("CONNECTOR_ITEM_" + reply.code.value, PassingError(reply))
    ensures Fleeting(ItemOutcome(reply)) <==> PassingError(reply)
  {
    assert "CONNECTOR_ITEM_" + "ITEM_ERROR" == "CONNECTOR_ITEM_ITEM_ERROR";
    assert |"ITEM_ERROR"| == 10 && |"TEMPORARILY_UNAVAILABLE"| == 23 && |"RATE_LIMITED"| == 12;
  }

  predicate PassingError(reply: ItemReply) {
    reply == ItemError(Some("TEMPORARILY_UNAVAILABLE")) || reply == ItemError(Some("RATE_LIMITED"))
  }

  function OutcomeFor(results: seq<ItemResult>, i: nat): RemoteOutcome {
    var reply := ReplyFor(results, i);
    if reply.Some? then ItemOutcome(reply.value) else RemoteError("UNANSWERED", false)
  }

  predicate TransientSeen(outcome: nat -> RemoteOutcome, rows: seq<nat>) {
    rows != [] && (TransientSeen(outcome, rows[..|rows| - 1]) || Fleeting(outcome(rows[|rows| - 1])))
  }

  predicate AllErrors(outcome: nat -> RemoteOutcome, rows: seq<nat>) {
    rows == [] || (AllErrors(outcome, rows[..|rows| - 1]) && outcome(rows[|rows| - 1]).RemoteError?)
  }

  function Parsed(results: seq<ItemResult>): nat -> RemoteOutcome {
    (i: nat) => OutcomeFor(results, i)
  }

  /** What is filed for a chunk that is not sent at all. */
  function Refusal(b: Breaker, cancelled: bool): nat -> RemoteOutcome {
    if cancelled then Same("IMPACT_CANCELLED", true)
    else if b.permanentCode.Some? then Same(b.permanentCode.value, false)
    else Same(CIRCUIT_OPEN_CODE, true)
  }

  function AdmitChunk(r: Remote, lim: Limits, c: nat, cancelled: bool, now: Instant): Remote
    requires c < |r.chunks| == |r.phases|
  {
    if r.phases[c] != Waiting then r
    else if cancelled then Conclude(r, c, Refusal(r.breaker, true))
    else
      var (b, allowed) := Ask(r.breaker, lim, now);
      if allowed then r.(breaker := b, phases := r.phases[c := Sent])
      else Conclude(r.(breaker := b), c, Refusal(b, false))
  }

  const ITEM_FAILURE := "CONNECTOR_ITEM_TRANSIENT"

  function AfterReply(b: Breaker, lim: Limits, rows: seq<nat>, reply: Result<seq<ItemResult>>, now: Instant): Breaker {
    match reply
    case Error(f) => Fail(b, lim, f.code, false, now)
    case Ok(results) =>
      if TransientSeen(Parsed(results), rows) && AllErrors(Parsed(results), rows)
      then Fail(b, lim, ITEM_FAILURE, false, now)
      else Succeed(b)
  }

  function Filing(reply: Result<seq<ItemResult>>): nat -> RemoteOutcome {
    match reply
    case Error(f) => Same(f.code, IsTransient(f))
    case Ok(results) => Parsed(results)
  }

  function SettleChunk(r: Remote, lim: Limits, c: nat, exchange: Exchange, now: Instant): Remote
    requires c < |r.chunks| == |r.phases|
  {
    if r.phases[c] != Sent then r
    else
      var reply := ReplyOf(r.chunks[c], exchange);
      Conclude(r.(breaker := AfterReply(r.breaker, lim, r.chunks[c], reply, now)), c, Filing(reply))
  }

  function Perform(r: Remote, lim: Limits, a: Action): Remote
    requires |r.chunks| == |r.phases|
  {
    if a.chunk >= |r.chunks| then r
    else match a
      case Admit(c, cancelled, at) => AdmitChunk(r, lim, c, cancelled, at)
      case Settle(c, exchange, at) => SettleChunk(r, lim, c, exchange, at)
  }

  function PerformAll(r: Remote, lim: Limits, actions: seq<Action>): (after: Remote)
    requires |r.chunks| == |r.phases|
    ensures after.chunks == r.chunks && |after.phases| == |r.phases|
  {
    if actions == [] then r else Perform(PerformAll(r, lim, actions[..|actions| - 1]), lim, actions[|actions| - 1])
  }

  /** The same steps, filing outcomes and driving the breaker in place. */
  class ChunkSender {
    const chunks: seq<seq<nat>>
    const breaker: CircuitBreaker
    var phases: seq<Phase>
    var results: map<nat, RemoteOutcome>
    ghost var log: seq<nat>

    ghost function View(): Remote
      reads this, breaker
    {
      Remote(chunks, phases, breaker.View(), results, log)
    }

    constructor (pending: seq<nat>, size: nat, limits: Limits)
      requires size > 0
      ensures View() == Start(pending, size) && breaker.limits == limits && fresh(breaker)
    {
      chunks := Chunks(pending, size);
      breaker := new CircuitBreaker(limits);
      phases := seq(|Chunks(pending, size)|, _ => Waiting);
      results, log := map[], [];
    }

    method FailRows(c: nat, code: string, transient: bool)
      requires c < |chunks| == |phases|
      modifies this
      ensures View() == Conclude(old(View()), c, Same(code, transient))
    {
      var rows, n := chunks[c], 0;
      while n < |rows|
        invariant 0 <= n <= |rows|
        invariant phases == old(phases) && log == old(log) && breaker.View() == old(breaker.View())
        invariant results == Filled(old(results), rows[..n], Same(code, transient))
      {
        assert rows[..n + 1][..n] == rows[..n];
        results := results[rows[n] := RemoteError(code, transient)];
        n := n + 1;
      }
      assert rows[..n] == rows;
      phases := phases[c := Finished];
      log := log + rows;
    }

    method TryAdmit(c: nat, cancelled: bool, now: Instant)
      requires c < |chunks| == |phases|
      modifies this, breaker
      ensures View() == AdmitChunk(old(View()), breaker.limits, c, cancelled, now)
    {
      if phases[c] != Waiting {
        return;
      }
      if cancelled {
        FailRows(c, "IMPACT_CANCELLED", true);
        return;
      }
      var allowed := breaker.Allow(now);
      if allowed {
        phases := phases[c := Sent];
      } else if breaker.permanentCode.Some? {
        FailRows(c, breaker.permanentCode.value, false);
      } else {
        FailRows(c, CIRCUIT_OPEN_CODE, true);
      }
    }

    method FileItems(c: nat, items: seq<ItemResult>) returns (transientSeen: bool, allErrors: bool)
      requires c < |chunks| == |phases|
      modifies this
      ensures View() == Conclude(old(View()), c, Parsed(items))
      ensures transientSeen == TransientSeen(Parsed(items), chunks[c]) && allErrors == AllErrors(Parsed(items), chunks[c])
    {
      var rows, n := chunks[c], 0;
      transientSeen, allErrors := false, true;
      while n < |rows|
        invariant 0 <= n <= |rows|
        invariant phases == old(phases) && log == old(log) && breaker.View() == old(breaker.View())
        invariant results == Filled(old(results), rows[..n], Parsed(items))
        invariant transientSeen == TransientSeen(Parsed(items), rows[..n])
        invariant allErrors == AllErrors(Parsed(items), rows[..n])
      {
        assert rows[..n + 1][..n] == rows[..n] && rows[..n + 1][n] == rows[n];
        var out := OutcomeFor(items, rows[n]);
        results := results[rows[n] := out];
        transientSeen := transientSeen || Fleeting(out);
        allErrors := allErrors && out.RemoteError?;
        n := n + 1;
      }
      assert rows[..n] == rows;
      phases := phases[c := Finished];
      log := log + rows;
    }

    method FileReply(c: nat, exchange: Exchange, now: Instant)
      requires c < |chunks| == |phases|
      modifies this, breaker
      ensures View() == SettleChunk(old(View()), breaker.limits, c, exchange, now)
    {
      if phases[c] != Sent {
        return;
      }
      match ReplyOf(chunks[c], exchange) {
        case Error(f) =>
          breaker.RecordFailure(f.code, false, now);
          FailRows(c, f.code, IsTransient(f));
        case Ok(items) =>
          var transientSeen, allErrors := FileItems(c, items);
          if transientSeen && allErrors {
            breaker.RecordFailure(ITEM_FAILURE, false, now);
          } else {
            breaker.RecordSuccess();
          }
      }
    }
  }

  // ---- Every pending row is answered exactly once -------------------------------------------

  function FinishedRows(chunks: seq<seq<nat>>, phases: seq<Phase>): seq<nat>
    requires |chunks| == |phases|
  {
    if chunks == [] then []
    else if phases[0] == Finished then chunks[0] + FinishedRows(chunks[1..], phases[1..])
    else FinishedRows(chunks[1..], phases[1..])
  }

  lemma {:induction false} FinishOne(chunks: seq<seq<nat>>, phases: seq<Phase>, c: nat, phase: Phase)
    requires c < |chunks| == |phases| && phases[c] != Finished
    ensures multiset(FinishedRows(chunks, phases[c := phase]))
         == multiset(FinishedRows(chunks, phases)) + if phase == Finished then multiset(chunks[c]) else multiset{}
  {
    if c > 0 {
      FinishOne(chunks[1..], phases[1..], c - 1, phase);
      assert phases[c := phase][1..] == phases[1..][c - 1 := phase];
    } else {
      assert phases[c := phase][1..] == phases[1..];
    }
  }

  lemma {:induction false} AllFinishedRows(chunks: seq<seq<nat>>, phases: seq<Phase>)
    requires |chunks| == |phases| && forall c | 0 <= c < |phases| :: phases[c] == Finished
    ensures FinishedRows(chunks, phases) == Flat(chunks)
  {
    if chunks != [] {
      AllFinishedRows(chunks[1..], phases[1..]);
    }
  }

  lemma {:induction false} NothingFinished(chunks: seq<seq<nat>>, phases: seq<Phase>)
    requires |chunks| == |phases| && forall c | 0 <= c < |phases| :: phases[c] == Waiting
    ensures FinishedRows(chunks, phases) == []
  {
    if chunks != [] {
      NothingFinished(chunks[1..], phases[1..]);
    }
  }

  /** One outcome has been filed for each row of each finished chunk, and for no other. */
  ghost predicate Tracked(r: Remote) {
    && |r.chunks| == |r.phases|
    && multiset(r.log) == multiset(FinishedRows(r.chunks, r.phases))
    && (forall i :: i in r.results <==> i in r.log)
  }

  lemma {:induction false} FilledKeys(results: map<nat, RemoteOutcome>, rows: seq<nat>, outcome: nat -> RemoteOutcome)
    ensures forall i :: i in Filled(results, rows, outcome) <==> i in results || i in rows
    ensures forall i | i in rows :: i in Filled(results, rows, outcome) && Filled(results, rows, outcome)[i] == outcome(i)
    ensures forall i | i in results && i !in rows ::
              i in Filled(results, rows, outcome) && Filled(results, rows, outcome)[i] == results[i]
  {
    if rows != [] {
      FilledKeys(results, rows[..|rows| - 1], outcome);
      assert rows == rows[..|rows| - 1] + [rows[|rows| - 1]];
    }
  }

  lemma ConcludeTracked(r: Remote, c: nat, outcome: nat -> RemoteOutcome)
    requires Tracked(r) && c < |r.chunks| && r.phases[c] != Finished
    ensures Tracked(Conclude(r, c, outcome))
  {
    FinishOne(r.chunks, r.phases, c, Finished);
    FilledKeys(r.results, r.chunks[c], outcome);
  }

  lemma PerformTracked(r: Remote, lim: Limits, a: Action)
    requires Tracked(r)
    ensures Tracked(Perform(r, lim, a))
  {
    if a.chunk < |r.chunks| && r.phases[a.chunk] != Finished {
      match a {
        case Admit(c, cancelled, at) =>
          var (b, allowed) := if cancelled then (r.breaker, false) else Ask(r.breaker, lim, at);
          FinishOne(r.chunks, r.phases, c, Sent);
          ConcludeTracked(r.(breaker := b), c, Refusal(b, cancelled));
        case Settle(c, exchange, at) =>
          var reply := ReplyOf(r.chunks[c], exchange);
          ConcludeTracked(r.(breaker := AfterReply(r.breaker, lim, r.chunks[c], reply, at)), c, Filing(reply));
      }
    }
  }

  lemma {:induction false} AllTracked(r: Remote, lim: Limits, actions: seq<Action>)
    requires Tracked(r)
    ensures Tracked(PerformAll(r, lim, actions))
  {
    if actions != [] {
      AllTracked(r, lim, actions[..|actions| - 1]);
      PerformTracked(PerformAll(r, lim, actions[..|actions| - 1]), lim, actions[|actions| - 1]);
    }
  }

  ghost predicate AllFinished(r: Remote) {
    forall c | 0 <= c < |r.phases| :: r.phases[c] == Finished
  }

  /** However the calls interleave, and whatever the breaker, the cancellation
      check and the connector do: when every call has ended, one outcome was
      filed for each pending row, and for nothing else. */
  lemma EveryRowAnsweredOnce(pending: seq<nat>, size: nat, lim: Limits, actions: seq<Action>)
    requires size > 0 && AllFinished(PerformAll(Start(pending, size), lim, actions))
    ensures var r := PerformAll(Start(pending, size), lim, actions);
            multiset(r.log) == multiset(pending) && forall i :: i in r.results <==> i in pending
  {
    var (first, r) := (Start(pending, size), PerformAll(Start(pending, size), lim, actions));
    NothingFinished(first.chunks, first.phases);
    AllTracked(first, lim, actions);
    AllFinishedRows(r.chunks, r.phases);
    ChunksTile(pending, size);
    assert forall i :: i in r.log <==> i in multiset(r.log);
    assert forall i :: i in pending <==> i in multiset(pending);
  }

  lemma {:induction false} PendingHasAll(snapshot: seq<Policy>, indexes: seq<nat>)
    requires forall k | 0 <= k < |indexes| :: indexes[k] < |snapshot|
    ensures forall i | i in indexes && NeedsReply(snapshot, i) :: i in PendingRows(snapshot, indexes)
  {
    if indexes != [] {
      PendingHasAll(snapshot, indexes[..|indexes| - 1]);
      assert indexes == indexes[..|indexes| - 1] + [indexes[|indexes| - 1]];
    }
  }

  /** Whether the connector is registered with the engine version asked for. */
  datatype Resolution = Resolved | Unresolvable(code: string)

  /** What an attempt gets for its pending rows: without a connector every row
      fails for good, and no call is made. */
  function RemoteResults(
      resolution: Resolution, pending: seq<nat>, size: nat, lim: Limits, actions: seq<Action>): map<nat, RemoteOutcome>
    requires size > 0
  {
    match resolution
    case Unresolvable(code) => Filled(map[], pending, Same(code, false))
    case Resolved => PerformAll(Start(pending, size), lim, actions).results
  }

  /** Either way each pending row has an outcome, and no other row has. */
  lemma EveryPendingRowAnswered(
      resolution: Resolution, pending: seq<nat>, size: nat, lim: Limits, actions: seq<Action>)
    requires size > 0
    requires resolution.Resolved? ==> AllFinished(PerformAll(Start(pending, size), lim, actions))
    ensures forall i :: i in RemoteResults(resolution, pending, size, lim, actions) <==> i in pending
    ensures resolution.Unresolvable? ==>
              forall i | i in pending ::
                RemoteResults(resolution, pending, size, lim, actions)[i] == RemoteError(resolution.code, false)
  {
    match resolution
    case Resolved => EveryRowAnsweredOnce(pending, size, lim, actions);
    case Unresolvable(code) => FilledKeys(map[], pending, Same(code, false));
  }

  /** So an attempt always has an answer for every row it must compare. */
  lemma AttemptIsAnswerable(
      snapshot: seq<Policy>, indexes: seq<nat>, resolution: Resolution, size: nat, lim: Limits, actions: seq<Action>)
    requires size > 0 && forall k | 0 <= k < |indexes| :: indexes[k] < |snapshot|
    requires resolution.Resolved? ==> AllFinished(PerformAll(Start(PendingRows(snapshot, indexes), size), lim, actions))
    ensures Answerable(snapshot, RemoteResults(resolution, PendingRows(snapshot, indexes), size, lim, actions), indexes)
  {
    EveryPendingRowAnswered(resolution, PendingRows(snapshot, indexes), size, lim, actions);
    PendingHasAll(snapshot, indexes);
  }

  // ---- What is filed for each row ---------------------------------------------------------------

  /** A waiting call that is not sent, and what its rows then get: cancelled first,
      then whatever opened the breaker. */
  lemma AdmittedExactly(r: Remote, lim: Limits, c: nat, cancelled: bool, now: Instant)
    requires c < |r.chunks| == |r.phases| && r.phases[c] == Waiting
    ensures var (after, b) := (AdmitChunk(r, lim, c, cancelled, now), r.breaker);
            var cooling := b.openedAt.Some? && now < b.openedAt.value + lim.cooldown;
            && (after.phases[c] == Sent <==> !cancelled && b.permanentCode.None? && !cooling)
            && (after.phases[c] == Sent ==> after.results == r.results)
            && (after.phases[c] != Sent ==>
                  && after.phases[c] == Finished && after.breaker == r.breaker
                  && forall i | i in r.chunks[c] ::
                       i in after.results && after.results[i] ==
                         if cancelled then RemoteError("IMPACT_CANCELLED", true)
                         else if b.permanentCode.Some? then RemoteError(b.permanentCode.value, false)
                         else RemoteError("CONNECTOR_CIRCUIT_OPEN", true))
  {
    FilledKeys(r.results, r.chunks[c], Refusal(r.breaker, cancelled));
  }

  /** A failed exchange fails every row of its chunk, for good unless the failure is transient. */
  lemma FailedExchangeFiled(r: Remote, lim: Limits, c: nat, exchange: Exchange, now: Instant, failure: Failure)
    requires c < |r.chunks| == |r.phases| && r.phases[c] == Sent && ReplyOf(r.chunks[c], exchange) == Error(failure)
    ensures var after := SettleChunk(r, lim, c, exchange, now);
            && after.breaker == Fail(r.breaker, lim, failure.code, false, now)
            && forall i | i in r.chunks[c] ::
                 i in after.results && after.results[i] == RemoteError(failure.code, IsTransient(failure))
  {
    FilledKeys(r.results, r.chunks[c], Filing(Error(failure)));
  }

  lemma {:induction false} SeenAmong(outcome: nat -> RemoteOutcome, rows: seq<nat>)
    ensures TransientSeen(outcome, rows) <==> exists j :: 0 <= j < |rows| && Fleeting(outcome(rows[j]))
    ensures AllErrors(outcome, rows) <==> forall j | 0 <= j < |rows| :: outcome(rows[j]).RemoteError?
  {
    if rows != [] {
      var n := |rows| - 1;
      SeenAmong(outcome, rows[..n]);
      if TransientSeen(outcome, rows[..n]) {
        var j :| 0 <= j < n && Fleeting(outcome(rows[..n][j]));
        assert Fleeting(outcome(rows[j]));
      }
    }
  }

  predicate IsNumber(reply: ItemReply) { reply.ItemOk? && reply.raw.Number? }

  lemma RowOfResult(rows: seq<nat>, results: seq<ItemResult>, k: nat) returns (j: nat)
    requires Distinct(rows) && ParseBatchResponse(rows, Some(BatchResponse(true, results))).Ok? && k < |results|
    ensures j < |rows| && Parsed(results)(rows[j]) == ItemOutcome(results[k].reply)
  {
    AcceptedAsSent(rows, results, k);
    j :| 0 <= j < |rows| && rows[j] == results[k].item;
  }

  lemma ResultOfRow(rows: seq<nat>, results: seq<ItemResult>, j: nat) returns (k: nat)
    requires ParseBatchResponse(rows, Some(BatchResponse(true, results))).Ok? && j < |rows|
    ensures k < |results| && Parsed(results)(rows[j]) == ItemOutcome(results[k].reply)
  {
    SortedSame(rows, ItemsOf(results));
    assert rows[j] in multiset(ItemsOf(results));
    k := ReplyForSome(results, rows[j]);
  }

  lemma PassingAmong(rows: seq<nat>, results: seq<ItemResult>)
    requires Distinct(rows) && ParseBatchResponse(rows, Some(BatchResponse(true, results))).Ok?
    ensures (exists j :: 0 <= j < |rows| && Fleeting(Parsed(results)(rows[j])))
       <==> (exists k :: 0 <= k < |results| && PassingError(results[k].reply))
  {
    if exists j :: 0 <= j < |rows| && Fleeting(Parsed(results)(rows[j])) {
      var j: nat :| j < |rows| && Fleeting(Parsed(results)(rows[j]));
      var k := ResultOfRow(rows, results, j);
      ItemOutcomeMeans(results[k].reply);
    }
    if exists k :: 0 <= k < |results| && PassingError(results[k].reply) {
      var k: nat :| k < |results| && PassingError(results[k].reply);
      var j := RowOfResult(rows, results, k);
      ItemOutcomeMeans(results[k].reply);
    }
  }

  lemma NumberIsCandidate(reply: ItemReply)
    ensures ItemOutcome(reply).RemoteError? <==> !IsNumber(reply)
  {
  }

  lemma NumbersAmong(rows: seq<nat>, results: seq<ItemResult>)
    requires Distinct(rows) && ParseBatchResponse(rows, Some(BatchResponse(true, results))).Ok?
    ensures (forall j | 0 <= j < |rows| :: Parsed(results)(rows[j]).RemoteError?)
       <==> (forall k | 0 <= k < |results| :: !IsNumber(results[k].reply))
  {
    if forall j | 0 <= j < |rows| :: Parsed(results)(rows[j]).RemoteError? {
      forall k | 0 <= k < |results| ensures !IsNumber(results[k].reply) {
        var j := RowOfResult(rows, results, k);
        NumberIsCandidate(results[k].reply);
      }
    }
    if forall k | 0 <= k < |results| :: !IsNumber(results[k].reply) {
      forall j | 0 <= j < |rows| ensures Parsed(results)(rows[j]).RemoteError? {
        var k := ResultOfRow(rows, results, j);
        NumberIsCandidate(results[k].reply);
      }
    }
  }

  /** An accepted reply counts against the breaker exactly when it prices no row
      and some of its errors is a passing one; any other closes it. */
  lemma AcceptedReplyHeard(b: Breaker, lim: Limits, rows: seq<nat>, results: seq<ItemResult>, now: Instant)
    requires Distinct(rows) && ParseBatchResponse(rows, Some(BatchResponse(true, results))).Ok?
    ensures AfterReply(b, lim, rows, Ok(results), now) ==
              if (forall k | 0 <= k < |results| :: !IsNumber(results[k].reply))
                 && (exists k :: 0 <= k < |results| && PassingError(results[k].reply))
              then Fail(b, lim, "CONNECTOR_ITEM_TRANSIENT", false, now)
              else b.(failures := 0, openedAt := None)
  {
    SeenAmong(Parsed(results), rows);
    PassingAmong(rows, results);
    NumbersAmong(rows, results);
  }

  lemma HeadApart(a: seq<nat>, b: seq<nat>)
    requires Distinct(a + b)
    ensures Distinct(b) && forall i | i in a :: i !in b
  {
    forall j, k | 0 <= j < k < |b| ensures b[j] != b[k] {
      assert (a + b)[|a| + j] == b[j] && (a + b)[|a| + k] == b[k];
    }
    forall j, k | 0 <= j < |a| && 0 <= k < |b| ensures a[j] != b[k] {
      assert (a + b)[j] == a[j] && (a + b)[|a| + k] == b[k];
    }
  }

  lemma {:induction false} RowsOfOneChunk(chunks: seq<seq<nat>>, c: nat, d: nat, i: nat)
    requires c < |chunks| && d < |chunks| && c != d && Distinct(Flat(chunks))
    requires i in chunks[c]
    ensures i !in chunks[d]
  {
    var rest := chunks[1..];
    HeadApart(chunks[0], Flat(rest));
    if c == 0 {
      ChunkWithin(rest, d - 1);
      assert forall x | x in chunks[d] :: x in multiset(chunks[d]) && x in multiset(Flat(rest));
    } else {
      ChunkWithin(rest, c - 1);
      assert i in multiset(chunks[c]) && i in multiset(Flat(rest));
      if d > 0 {
        RowsOfOneChunk(rest, c - 1, d - 1, i);
      }
    }
  }

  lemma ConcludeElsewhere(r: Remote, c: nat, d: nat, i: nat, outcome: nat -> RemoteOutcome)
    requires c < |r.chunks| == |r.phases| && d < |r.chunks| && c != d && Distinct(Flat(r.chunks))
    requires i in r.chunks[c] && i in r.results
    ensures var after := Conclude(r, d, outcome); i in after.results && after.results[i] == r.results[i]
  {
    RowsOfOneChunk(r.chunks, c, d, i);
    FilledKeys(r.results, r.chunks[d], outcome);
  }

  /** An outcome filed for a row of a finished chunk stays, whatever the other calls do. */
  lemma {:induction false} FiledForGood(r: Remote, lim: Limits, actions: seq<Action>, c: nat, i: nat)
    requires c < |r.chunks| == |r.phases| && r.phases[c] == Finished && Distinct(Flat(r.chunks))
    requires i in r.chunks[c] && i in r.results
    ensures var after := PerformAll(r, lim, actions);
            after.phases[c] == Finished && i in after.results && after.results[i] == r.results[i]
  {
    if actions != [] {
      var (before, a) := (PerformAll(r, lim, actions[..|actions| - 1]), actions[|actions| - 1]);
      FiledForGood(r, lim, actions[..|actions| - 1], c, i);
      if a.chunk < |r.chunks| && a.chunk != c {
        match a {
          case Admit(d, cancelled, at) =>
            var (b, allowed) := if cancelled then (before.breaker, false) else Ask(before.breaker, lim, at);
            ConcludeElsewhere(before.(breaker := b), c, d, i, Refusal(b, cancelled));
          case Settle(d, exchange, at) =>
            var reply := ReplyOf(before.chunks[d], exchange);
            ConcludeElsewhere(before.(breaker := AfterReply(before.breaker, lim, before.chunks[d], reply, at)),
                              c, d, i, Filing(reply));
        }
      }
    }
  }

  lemma SettledAsSent(r: Remote, lim: Limits, c: nat, results: seq<ItemResult>, at: Instant, k: nat)
    requires c < |r.chunks| == |r.phases| && r.phases[c] == Sent && Distinct(r.chunks[c])
    requires ParseBatchResponse(r.chunks[c], Some(BatchResponse(true, results))).Ok? && k < |results|
    ensures var after := SettleChunk(r, lim, c, Body(Some(BatchResponse(true, results))), at);
            && after.phases[c] == Finished && results[k].item in r.chunks[c] && results[k].item in after.results
            && after.results[results[k].item] == ItemOutcome(results[k].reply)
  {
    AcceptedAsSent(r.chunks[c], results, k);
    FilledKeys(r.results, r.chunks[c], Parsed(results));
  }

  /** Whatever happened before and whatever happens after, once an accepted reply
      comes back for a sent chunk, each row it names has the outcome of its own
      result: the candidate premium exactly when that result is a number. */
  lemma RowsGetTheirOwnReply(
      pending: seq<nat>, size: nat, lim: Limits, before: seq<Action>, c: nat, results: seq<ItemResult>, at: Instant,
      later: seq<Action>, k: nat)
    requires size > 0 && Distinct(pending)
    requires var r := PerformAll(Start(pending, size), lim, before);
             && c < |r.chunks| && r.phases[c] == Sent && k < |results|
             && ParseBatchResponse(r.chunks[c], Some(BatchResponse(true, results))).Ok?
    ensures var r := PerformAll(Start(pending, size), lim, before);
            var final := PerformAll(SettleChunk(r, lim, c, Body(Some(BatchResponse(true, results))), at), lim, later);
            && results[k].item in final.results
            && forall v :: final.results[results[k].item] == Candidate(v) <==> results[k].reply == ItemOk(Number(v))
  {
    var r := PerformAll(Start(pending, size), lim, before);
    ChunksTile(pending, size);
    ChunkWithin(r.chunks, c);
    DistinctWithin(r.chunks[c], pending);
    SettledAsSent(r, lim, c, results, at, k);
    FiledForGood(SettleChunk(r, lim, c, Body(Some(BatchResponse(true, results))), at), lim, later, c, results[k].item);
    ItemOutcomeMeans(results[k].reply);
  }

  // ---- A connector with fixed answers ----------------------------------------------------------

  /** An exchange that fails does so transiently and not systemically; one that
      succeeds gives each row its own answer or a transient error. */
  ghost predicate FaithfulExchange(answers: nat -> RemoteOutcome, rows: seq<nat>, exchange: Exchange) {
    match ReplyOf(rows, exchange)
    case Error(f) => IsTransient(f) && f.code !in SYSTEMIC_PERMANENT_CODES
    case Ok(results) =>
      forall k | 0 <= k < |results| ::
        PassingError(results[k].reply) || ItemOutcome(results[k].reply) == answers(results[k].item)
  }

  ghost predicate FaithfulActions(answers: nat -> RemoteOutcome, chunks: seq<seq<nat>>, actions: seq<Action>) {
    forall k | 0 <= k < |actions| && actions[k].Settle? && actions[k].chunk < |chunks| ::
      FaithfulExchange(answers, chunks[actions[k].chunk], actions[k].exchange)
  }

  ghost predicate GoodSoFar(answers: nat -> RemoteOutcome, r: Remote) {
    && r.breaker.permanentCode.None?
    && forall i | i in r.results :: Fleeting(r.results[i]) || r.results[i] == answers(i)
  }

  lemma ConcludeGood(answers: nat -> RemoteOutcome, r: Remote, c: nat, outcome: nat -> RemoteOutcome)
    requires GoodSoFar(answers, r) && c < |r.chunks| == |r.phases|
    requires forall i | i in r.chunks[c] :: Fleeting(outcome(i)) || outcome(i) == answers(i)
    ensures GoodSoFar(answers, Conclude(r, c, outcome))
  {
    FilledKeys(r.results, r.chunks[c], outcome);
    forall i | i in Filled(r.results, r.chunks[c], outcome)
      ensures Fleeting(Filled(r.results, r.chunks[c], outcome)[i])
           || Filled(r.results, r.chunks[c], outcome)[i] == answers(i)
    {
      if i !in r.chunks[c] {
        assert i in r.results;
      }
    }
  }

  lemma ItemFailureIsPassing()
    ensures ITEM_FAILURE !in SYSTEMIC_PERMANENT_CODES
  {
    assert |ITEM_FAILURE| == 24;
  }

  lemma AdmitGood(answers: nat -> RemoteOutcome, r: Remote, lim: Limits, c: nat, cancelled: bool, at: Instant)
    requires GoodSoFar(answers, r) && c < |r.chunks| == |r.phases|
    ensures GoodSoFar(answers, AdmitChunk(r, lim, c, cancelled, at))
  {
    var (b, allowed) := if cancelled then (r.breaker, false) else Ask(r.breaker, lim, at);
    ConcludeGood(answers, r.(breaker := b), c, Refusal(b, cancelled));
  }

  lemma FaithfulReplyIsPassing(
      answers: nat -> RemoteOutcome, b: Breaker, lim: Limits, rows: seq<nat>, exchange: Exchange, at: Instant)
    requires b.permanentCode.None? && FaithfulExchange(answers, rows, exchange)
    ensures AfterReply(b, lim, rows, ReplyOf(rows, exchange), at).permanentCode.None?
  {
    ItemFailureIsPassing();
  }

  lemma FaithfulFiling(answers: nat -> RemoteOutcome, rows: seq<nat>, exchange: Exchange)
    requires FaithfulExchange(answers, rows, exchange)
    ensures var outcome := Filing(ReplyOf(rows, exchange));
            forall i | i in rows :: Fleeting(outcome(i)) || outcome(i) == answers(i)
  {
    match ReplyOf(rows, exchange)
    case Error(f) =>
    case Ok(results) =>
      SortedSame(rows, ItemsOf(results));
      forall i | i in rows ensures Fleeting(OutcomeFor(results, i)) || OutcomeFor(results, i) == answers(i) {
        assert i in multiset(ItemsOf(results));
        var k := ReplyForSome(results, i);
        ItemOutcomeMeans(results[k].reply);
      }
  }

  lemma SettleGood(answers: nat -> RemoteOutcome, r: Remote, lim: Limits, c: nat, exchange: Exchange, at: Instant)
    requires GoodSoFar(answers, r) && c < |r.chunks| == |r.phases|
    requires FaithfulExchange(answers, r.chunks[c], exchange)
    ensures GoodSoFar(answers, SettleChunk(r, lim, c, exchange, at))
  {
    var b := AfterReply(r.breaker, lim, r.chunks[c], ReplyOf(r.chunks[c], exchange), at);
    FaithfulReplyIsPassing(answers, r.breaker, lim, r.chunks[c], exchange, at);
    FaithfulFiling(answers, r.chunks[c], exchange);
    ConcludeGood(answers, r.(breaker := b), c, Filing(ReplyOf(r.chunks[c], exchange)));
  }

  lemma PerformGood(answers: nat -> RemoteOutcome, r: Remote, lim: Limits, a: Action)
    requires GoodSoFar(answers, r) && |r.chunks| == |r.phases|
    requires a.Settle? && a.chunk < |r.chunks| ==> FaithfulExchange(answers, r.chunks[a.chunk], a.exchange)
    ensures GoodSoFar(answers, Perform(r, lim, a))
  {
    if a.chunk < |r.chunks| {
      match a
      case Admit(c, cancelled, at) => AdmitGood(answers, r, lim, c, cancelled, at);
      case Settle(c, exchange, at) => SettleGood(answers, r, lim, c, exchange, at);
    }
  }

  /** With a connector that gives each row one answer whenever it answers, every
      outcome filed is that answer or a transient error, however calls interleave. */
  lemma {:induction false} FaithfulConnectorFilesAnswers(
      answers: nat -> RemoteOutcome, pending: seq<nat>, size: nat, lim: Limits, actions: seq<Action>)
    requires size > 0 && FaithfulActions(answers, Chunks(pending, size), actions)
    ensures GoodSoFar(answers, PerformAll(Start(pending, size), lim, actions))
  {
    if actions != [] {
      var n := |actions| - 1;
      FaithfulConnectorFilesAnswers(answers, pending, size, lim, actions[..n]);
      PerformGood(answers, PerformAll(Start(pending, size), lim, actions[..n]), lim, actions[n]);
    }
  }
}

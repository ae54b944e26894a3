/** Listing a tenant's missions through an ever wider window (`backend/app/api/missions.py`). */
module MissionListing {
  import opened Arithmetic

  const MAX_SCAN_RECORDS := 1000

  /** Text is compared without regard to case, so it is held here in upper case. */
  datatype MissionRecord = MissionRecord(
    runId: string, tenant: string, isV2: bool, isDemoSample: bool, status: string, mode: string, decision: string)

  /** An absent or empty filter lets everything through. */
  datatype Filters = Filters(
    includeLegacy: bool, includeDemoSamples: bool, status: string, mode: string, decision: string)

  predicate Matches(r: MissionRecord, f: Filters) {
    && (f.includeLegacy || r.isV2)
    && (f.includeDemoSamples || !r.isDemoSample)
    && (if f.status != "" then r.status == f.status else r.status != "ARCHIVED")
    && (f.mode == "" || (if r.mode == "" then "RELEASE_CONFORMANCE" else r.mode) == f.mode)
    && (f.decision == "" || r.decision == f.decision)
  }

  /** Who asks: records without a tenant belong to the caller only when the server says so. */
  datatype Caller = Caller(tenant: string, ownsLegacy: bool)

  predicate OwnedBy(r: MissionRecord, c: Caller) {
    c.tenant != "" && if r.tenant != "" then r.tenant == c.tenant else c.ownsLegacy
  }

  function Take<T>(s: seq<T>, n: nat): seq<T> { if |s| <= n then s else s[..n] }

  function Select<T>(s: seq<T>, keep: T -> bool): seq<T> {
    if s == [] then []
    else
      var before := Select(s[..|s| - 1], keep);
      if keep(s[|s| - 1]) then before + [s[|s| - 1]] else before
  }

  function Mine(c: Caller): MissionRecord -> bool { r => OwnedBy(r, c) }

  function Wanted(f: Filters): MissionRecord -> bool { r => Matches(r, f) }

  /** All runs, newest first. The document store queries one tenant's runs; the
      in-memory store picks them out of its most recent runs of any tenant. */
  datatype Store = TenantQuery(runs: seq<MissionRecord>) | RecentThenTenant(runs: seq<MissionRecord>)

  function Visible(store: Store, c: Caller): seq<MissionRecord> {
    match store
    case TenantQuery(runs) => Select(runs, Mine(c))
    case RecentThenTenant(runs) => Select(Take(runs, MAX_SCAN_RECORDS), Mine(c))
  }

  function ListRunsForTenant(store: Store, c: Caller, limit: nat): seq<MissionRecord> {
    Take(Visible(store, c), if limit < 1 then 1 else Min(limit, MAX_SCAN_RECORDS))
  }

  function Page<T>(s: seq<T>, offset: nat, limit: nat): seq<T> {
    if |s| <= offset then [] else Take(s[offset..], limit)
  }

  /** The matches among the records a scan can ever reach. */
  function Reachable(store: Store, c: Caller, f: Filters): seq<MissionRecord> {
    Select(Take(Visible(store, c), MAX_SCAN_RECORDS), Wanted(f))
  }

  /** The filter applied to every record of the tenant. */
  function AllMatches(store: Store, c: Caller, f: Filters): seq<MissionRecord> {
    Select(Select(store.runs, Mine(c)), Wanted(f))
  }

  method SelectMatches(records: seq<MissionRecord>, f: Filters) returns (matches: seq<MissionRecord>)
    ensures matches == Select(records, Wanted(f))
  {
    matches := [];
    var n := 0;
    while n < |records|
      invariant 0 <= n <= |records|
      invariant matches == Select(records[..n], Wanted(f))
    {
      assert records[..n + 1][..n] == records[..n];
      if Matches(records[n], f) {
        matches := matches + [records[n]];
      }
      n := n + 1;
    }
    assert records[..n] == records;
  }

  /** Why the window stops widening, the first that holds: it holds enough
      matches, the store has no more records, or only because the cap is reached. */
  datatype Stop = PageFilled | RecordsRanOut | CapReached

  datatype Scan = Scan(stop: Stop, matches: seq<MissionRecord>)

  /** Widening from a given window on. */
  function ScanFrom(store: Store, c: Caller, f: Filters, needed: nat, window: nat): Scan
    requires 1 <= window <= MAX_SCAN_RECORDS
    decreases MAX_SCAN_RECORDS - window
  {
    var records := ListRunsForTenant(store, c, window);
    var matches := Select(records, Wanted(f));
    if |matches| >= needed then Scan(PageFilled, matches)
    else if |records| < window then Scan(RecordsRanOut, matches)
    else if window >= MAX_SCAN_RECORDS then Scan(CapReached, matches)
    else ScanFrom(store, c, f, needed, Min(window * 2, MAX_SCAN_RECORDS))
  }

  function ScanFor(store: Store, c: Caller, f: Filters, needed: nat): Scan {
    ScanFrom(store, c, f, needed, Min(needed + 50, MAX_SCAN_RECORDS))
  }

  /** The page and count of the widening loop, and why it stopped; for a store
      that queries by tenant the page is that of the unbounded query unless the
      loop stopped only because the cap was reached. */
  method ListMissions(store: Store, c: Caller, f: Filters, limit: nat, offset: nat)
    returns (page: seq<MissionRecord>, total: nat, stop: Stop)
    requires 1 <= limit <= 200 && offset <= 1000
    ensures var scan := ScanFor(store, c, f, offset + limit);
            page == Page(scan.matches, offset, limit) && total == |scan.matches| && stop == scan.stop
    ensures page == Page(Reachable(store, c, f), offset, limit)
    ensures total <= |Reachable(store, c, f)| && (total < offset + limit ==> total == |Reachable(store, c, f)|)
    ensures store.TenantQuery? && stop != CapReached ==>
              && page == Page(AllMatches(store, c, f), offset, limit)
              && (total < offset + limit ==> total == |AllMatches(store, c, f)|)
  {
    var needed := offset + limit;
    var window: nat := Min(needed + 50, MAX_SCAN_RECORDS);
    while true
      invariant 1 <= window <= MAX_SCAN_RECORDS
      invariant ScanFor(store, c, f, needed) == ScanFrom(store, c, f, needed, window)
      decreases MAX_SCAN_RECORDS - window
    {
      var records := ListRunsForTenant(store, c, window);
      var matches := SelectMatches(records, f);
      if |matches| >= needed || |records| < window || window >= MAX_SCAN_RECORDS {
        ScanPage(store, c, f, offset, limit, window);
        stop := if |matches| >= needed then PageFilled else if |records| < window then RecordsRanOut else CapReached;
        return Page(matches, offset, limit), |matches|, stop;
      }
      window := Min(window * 2, MAX_SCAN_RECORDS);
    }
  }

  /** What a window that stops the widening has found. */
  lemma ScanPage(store: Store, c: Caller, f: Filters, offset: nat, limit: nat, window: nat)
    requires 1 <= window <= MAX_SCAN_RECORDS && limit >= 1
    requires var records := ListRunsForTenant(store, c, window);
             || |Select(records, Wanted(f))| >= offset + limit || |records| < window || window == MAX_SCAN_RECORDS
    ensures var records := ListRunsForTenant(store, c, window);
            var matches := Select(records, Wanted(f));
            && matches <= Reachable(store, c, f)
            && (|matches| < offset + limit ==> matches == Reachable(store, c, f))
            && Page(matches, offset, limit) == Page(Reachable(store, c, f), offset, limit)
            && (store.TenantQuery? && (|matches| >= offset + limit || |records| < window) ==>
                  && Page(matches, offset, limit) == Page(AllMatches(store, c, f), offset, limit)
                  && (|matches| < offset + limit ==> matches == AllMatches(store, c, f)))
  {
    var records := ListRunsForTenant(store, c, window);
    var matches := Select(records, Wanted(f));
    PrefixOfReachable(store, c, f, window);
    ReachableIsPrefix(store, c, f);
    SamePage(matches, Reachable(store, c, f), offset, limit);
    if store.TenantQuery? && (|matches| >= offset + limit || |records| < window) {
      if |records| < window {
        assert records == Visible(store, c);
      }
      SamePage(matches, AllMatches(store, c, f), offset, limit);
    }
  }

  // ---- What a page shows ------------------------------------------------------------------------

  lemma {:induction false} SelectMembers<T>(s: seq<T>, keep: T -> bool, x: T)
    ensures x in Select(s, keep) <==> x in s && keep(x)
  {
    if s != [] {
      var n := |s| - 1;
      SelectMembers(s[..n], keep, x);
      assert s == s[..n] + [s[n]];
    }
  }

  /** Which runs the unbounded query shows: the caller's own, or those without a
      tenant if the caller owns them; archived ones only when asked for by
      status; and with a run's mode taken as conformance when it has none. */
  lemma ShownExactly(store: Store, c: Caller, f: Filters, r: MissionRecord)
    ensures r in AllMatches(store, c, f) <==>
              && r in store.runs
              && c.tenant != "" && (r.tenant == c.tenant || (r.tenant == "" && c.ownsLegacy))
              && (r.isV2 || f.includeLegacy) && (!r.isDemoSample || f.includeDemoSamples)
              && (r.status == f.status || (f.status == "" && r.status != "ARCHIVED"))
              && (f.status == "" ==> r.status != "ARCHIVED")
              && (f.mode == "" || r.mode == f.mode || (r.mode == "" && f.mode == "RELEASE_CONFORMANCE"))
              && (f.decision == "" || r.decision == f.decision)
  {
    SelectMembers(store.runs, Mine(c), r);
    SelectMembers(Select(store.runs, Mine(c)), Wanted(f), r);
  }

  /** The k-th window: fifty more than needed at first, then doubled, up to a thousand. */
  function WindowAt(needed: nat, k: nat): (window: nat)
    ensures 1 <= window <= 1000
  {
    var window := if k == 0 then needed + 50 else 2 * WindowAt(needed, k - 1);
    if window < 1000 then window else 1000
  }

  ghost predicate StopsAt(store: Store, c: Caller, f: Filters, needed: nat, window: nat) {
    || |Select(Take(Visible(store, c), window), Wanted(f))| >= needed
    || |Visible(store, c)| < window || window == 1000
  }

  lemma {:induction false} ScanStops(store: Store, c: Caller, f: Filters, needed: nat, k: nat) returns (stop: nat)
    ensures k <= stop && StopsAt(store, c, f, needed, WindowAt(needed, stop))
    ensures forall j | k <= j < stop :: !StopsAt(store, c, f, needed, WindowAt(needed, j))
    ensures ScanFrom(store, c, f, needed, WindowAt(needed, k))
         == ScanFrom(store, c, f, needed, WindowAt(needed, stop))
    decreases MAX_SCAN_RECORDS - WindowAt(needed, k)
  {
    if StopsAt(store, c, f, needed, WindowAt(needed, k)) {
      stop := k;
    } else {
      stop := ScanStops(store, c, f, needed, k + 1);
    }
  }

  /** The loop stops at the first window that holds enough matches, or more than
      there is to see, or a thousand; what it found is what matches in that
      window, and the reason is the first of these that holds. */
  lemma ScanExactly(store: Store, c: Caller, f: Filters, needed: nat) returns (k: nat)
    ensures var (window, scan) := (WindowAt(needed, k), ScanFor(store, c, f, needed));
            && scan.matches == Select(Take(Visible(store, c), window), Wanted(f))
            && StopsAt(store, c, f, needed, window)
            && (forall j | 0 <= j < k :: !StopsAt(store, c, f, needed, WindowAt(needed, j)))
            && (scan.stop == PageFilled <==> |scan.matches| >= needed)
            && (scan.stop == RecordsRanOut <==> |scan.matches| < needed && |Visible(store, c)| < window)
            && (scan.stop == CapReached <==> |scan.matches| < needed && |Visible(store, c)| >= window == 1000)
  {
    k := ScanStops(store, c, f, needed, 0);
  }

  // ---- When the page is the right one -------------------------------------------------------

  lemma {:induction false} SelectPrefix<T>(s: seq<T>, n: nat, keep: T -> bool)
    requires n <= |s|
    ensures Select(s[..n], keep) <= Select(s, keep)
  {
    if n == |s| {
      assert s[..n] == s;
    } else {
      var m := |s| - 1;
      SelectPrefix(s[..m], n, keep);
      assert s[..m][..n] == s[..n];
    }
  }

  lemma TakeOfTake<T>(s: seq<T>, n: nat, m: nat)
    requires n <= m
    ensures Take(Take(s, m), n) == Take(s, n)
  {
  }

  lemma PrefixOfReachable(store: Store, c: Caller, f: Filters, window: nat)
    requires 1 <= window <= MAX_SCAN_RECORDS
    ensures var records := ListRunsForTenant(store, c, window);
            && Select(records, Wanted(f)) <= Reachable(store, c, f)
            && (|records| < window || window == MAX_SCAN_RECORDS ==> Select(records, Wanted(f)) == Reachable(store, c, f))
  {
    var all := Take(Visible(store, c), MAX_SCAN_RECORDS);
    TakeOfTake(Visible(store, c), window, MAX_SCAN_RECORDS);
    if window < |all| {
      SelectPrefix(all, window, Wanted(f));
    }
  }

  lemma SamePage<T>(some: seq<T>, all: seq<T>, offset: nat, limit: nat)
    requires some <= all && (|some| >= offset + limit || some == all)
    ensures Page(some, offset, limit) == Page(all, offset, limit)
  {
  }

  /** A page of a prefix is the page of the whole exactly when the prefix fills
      it, or nothing follows the prefix, or the page lies past everything. */
  lemma PageOfPrefix<T(!new)>(some: seq<T>, all: seq<T>, offset: nat, limit: nat)
    requires some <= all && limit > 0
    ensures Page(some, offset, limit) == Page(all, offset, limit)
       <==> |some| >= offset + limit || |some| == |all| || |all| <= offset
  {
    if |some| < offset + limit && |some| < |all| && offset < |all| {
      assert |Page(some, offset, limit)| < |Page(all, offset, limit)|;
    } else if |some| == |all| {
      assert some == all;
    } else if |some| >= offset + limit {
      SamePage(some, all, offset, limit);
    }
  }

  lemma ReachableIsPrefix(store: Store, c: Caller, f: Filters)
    ensures Reachable(store, c, f) <= AllMatches(store, c, f)
  {
    var (visible, mine) := (Visible(store, c), Select(store.runs, Mine(c)));
    if store.RecentThenTenant? && |store.runs| > MAX_SCAN_RECORDS {
      SelectPrefix(store.runs, MAX_SCAN_RECORDS, Mine(c));
    }
    assert visible <= mine;
    var n := if |visible| <= MAX_SCAN_RECORDS then |visible| else MAX_SCAN_RECORDS;
    assert Take(visible, MAX_SCAN_RECORDS) == mine[..n];
    SelectPrefix(mine, n, Wanted(f));
  }

  /** The listing shows what filtering every record of the tenant would show, on
      that page, if and only if the scan found enough matches, or missed none,
      or the page lies past the last of them. */
  lemma ListingAgreesExactlyWhen(store: Store, c: Caller, f: Filters, limit: nat, offset: nat)
    requires limit >= 1
    ensures var (found, all) := (Reachable(store, c, f), AllMatches(store, c, f));
            Page(found, offset, limit) == Page(all, offset, limit)
            <==> |found| >= offset + limit || |found| == |all| || |all| <= offset
  {
    ReachableIsPrefix(store, c, f);
    PageOfPrefix(Reachable(store, c, f), AllMatches(store, c, f), offset, limit);
  }

  /** The page is always right when all runs fit under the cap, or when the
      store queries by tenant and this tenant's runs do. */
  lemma SmallStoresAreListedExactly(store: Store, c: Caller, f: Filters, limit: nat, offset: nat)
    requires limit >= 1
    requires |store.runs| <= 1000 || (store.TenantQuery? && |Select(store.runs, Mine(c))| <= 1000)
    ensures Page(Reachable(store, c, f), offset, limit) == Page(AllMatches(store, c, f), offset, limit)
  {
    SelectShrinks(store.runs, Mine(c));
  }

  // ---- On the data ---------------------------------------------------------------------------

  function Drop<T>(s: seq<T>, n: nat): seq<T> { if |s| <= n then [] else s[n..] }

  /** The caller's runs that no window can reach. */
  function Beyond(store: Store, c: Caller): seq<MissionRecord> {
    match store
    case TenantQuery(runs) => Drop(Select(runs, Mine(c)), 1000)
    case RecentThenTenant(runs) => Select(Drop(runs, 1000), Mine(c))
  }

  lemma {:induction false} SelectConcat<T>(a: seq<T>, b: seq<T>, keep: T -> bool)
    ensures Select(a + b, keep) == Select(a, keep) + Select(b, keep)
  {
    if b == [] {
      assert a + b == a;
    } else {
      var n := |b| - 1;
      assert (a + b)[..|a + b| - 1] == a + b[..n];
      SelectConcat(a, b[..n], keep);
    }
  }

  lemma TakeDrop<T>(s: seq<T>, n: nat)
    ensures s == Take(s, n) + Drop(s, n)
  {
  }

  lemma ReachableAndBeyond(store: Store, c: Caller, f: Filters)
    ensures AllMatches(store, c, f) == Reachable(store, c, f) + Select(Beyond(store, c), Wanted(f))
  {
    match store {
      case TenantQuery(runs) =>
        TakeDrop(Select(runs, Mine(c)), MAX_SCAN_RECORDS);
        SelectConcat(Take(Select(runs, Mine(c)), MAX_SCAN_RECORDS), Beyond(store, c), Wanted(f));
      case RecentThenTenant(runs) =>
        var (recent, older) := (Take(runs, MAX_SCAN_RECORDS), Drop(runs, MAX_SCAN_RECORDS));
        TakeDrop(runs, MAX_SCAN_RECORDS);
        SelectConcat(recent, older, Mine(c));
        SelectShrinks(recent, Mine(c));
        SelectConcat(Select(recent, Mine(c)), Select(older, Mine(c)), Wanted(f));
    }
  }

  lemma {:induction false} SelectNothing<T>(s: seq<T>, keep: T -> bool)
    ensures Select(s, keep) == [] <==> forall k | 0 <= k < |s| :: !keep(s[k])
  {
    if s != [] {
      var n := |s| - 1;
      SelectNothing(s[..n], keep);
      assert forall k | 0 <= k < n :: s[..n][k] == s[k];
    }
  }

  /** A page that can be asked for. */
  predicate Allowed(offset: nat, limit: nat) { 1 <= limit <= 200 && offset <= 1000 }

  ghost predicate PageAgrees(store: Store, c: Caller, f: Filters, offset: nat, limit: nat) {
    Page(Reachable(store, c, f), offset, limit) == Page(AllMatches(store, c, f), offset, limit)
  }

  /** Every page that can be asked for is that of the unbounded query if and only
      if no matching run of the caller lies beyond reach: beyond the caller's
      first thousand runs in one store, beyond the first thousand of anybody's in
      the other. */
  lemma AllPagesAgreeExactlyWhen(store: Store, c: Caller, f: Filters)
    ensures (forall offset: nat, limit: nat | Allowed(offset, limit) :: PageAgrees(store, c, f, offset, limit))
       <==> (forall k | 0 <= k < |Beyond(store, c)| :: !Matches(Beyond(store, c)[k], f))
  {
    var (found, all, rest) := (Reachable(store, c, f), AllMatches(store, c, f), Select(Beyond(store, c), Wanted(f)));
    ReachableAndBeyond(store, c, f);
    SelectNothing(Beyond(store, c), Wanted(f));
    assert rest == [] <==> forall k | 0 <= k < |Beyond(store, c)| :: !Matches(Beyond(store, c)[k], f) by {
      assert forall k | 0 <= k < |Beyond(store, c)| :: Wanted(f)(Beyond(store, c)[k]) == Matches(Beyond(store, c)[k], f);
    }
    if rest == [] {
      assert found == all;
    } else {
      ReachableIsShort(store, c, f);
      PageOfPrefix(found, all, |found|, 1);
      assert Allowed(|found|, 1) && !PageAgrees(store, c, f, |found|, 1);
    }
  }

  lemma ReachableIsShort(store: Store, c: Caller, f: Filters)
    ensures |Reachable(store, c, f)| <= MAX_SCAN_RECORDS
  {
    SelectShrinks(Take(Visible(store, c), MAX_SCAN_RECORDS), Wanted(f));
  }

  /** In the store that picks the tenant out of the most recent runs, a caller
      whose runs lie behind a thousand newer ones of others is told there is
      nothing: the records run out before the cap is reached, and the first page
      is empty although the unbounded query has matches to show. */
  lemma NewerRunsOfOthersHideMine(
      others: seq<MissionRecord>, mine: seq<MissionRecord>, c: Caller, f: Filters, limit: nat, k: nat)
    requires |others| == 1000 && forall i | 0 <= i < |others| :: !OwnedBy(others[i], c)
    requires k < |mine| && OwnedBy(mine[k], c) && Matches(mine[k], f) && 1 <= limit <= 200
    ensures var store := RecentThenTenant(others + mine);
            && ScanFor(store, c, f, limit) == Scan(RecordsRanOut, [])
            && Page(AllMatches(store, c, f), 0, limit) != []
  {
    var store := RecentThenTenant(others + mine);
    SelectNothing(others, Mine(c));
    assert Take(store.runs, MAX_SCAN_RECORDS) == others && Drop(store.runs, MAX_SCAN_RECORDS) == mine;
    ReachableAndBeyond(store, c, f);
    SelectMember(mine, Mine(c), k);
    var (r, owned) := (mine[k], Select(mine, Mine(c)));
    var j: nat :| j < |owned| && owned[j] == r;
    SelectNothing(owned, Wanted(f));
    assert Wanted(f)(owned[j]);
  }

  lemma {:induction false} ScanFindsNothing(store: Store, c: Caller, f: Filters, needed: nat, window: nat)
    requires 1 <= window <= MAX_SCAN_RECORDS && needed > 0
    requires |Visible(store, c)| >= MAX_SCAN_RECORDS && Reachable(store, c, f) == []
    ensures ScanFrom(store, c, f, needed, window) == Scan(CapReached, [])
    decreases MAX_SCAN_RECORDS - window
  {
    PrefixOfReachable(store, c, f, window);
    if window < MAX_SCAN_RECORDS {
      ScanFindsNothing(store, c, f, needed, Min(window * 2, MAX_SCAN_RECORDS));
    }
  }

  /** With tenant queries too the cap can hide a match: behind a thousand newer
      runs of the caller that the filter drops, a matching one is not shown, and
      the loop stopped only because of the cap. */
  lemma CapHidesOlderRuns(
      newer: seq<MissionRecord>, older: seq<MissionRecord>, c: Caller, f: Filters, limit: nat, k: nat)
    requires |newer| == 1000
    requires forall i | 0 <= i < |newer| :: OwnedBy(newer[i], c) && !Matches(newer[i], f)
    requires k < |older| && OwnedBy(older[k], c) && Matches(older[k], f) && 1 <= limit <= 200
    ensures var store := TenantQuery(newer + older);
            && ScanFor(store, c, f, limit) == Scan(CapReached, [])
            && Page(AllMatches(store, c, f), 0, limit) != []
  {
    var store := TenantQuery(newer + older);
    SelectAll(newer, Mine(c));
    SelectConcat(newer, older, Mine(c));
    assert Take(Visible(store, c), MAX_SCAN_RECORDS) == newer;
    SelectNothing(newer, Wanted(f));
    ScanFindsNothing(store, c, f, limit, Min(limit + 50, MAX_SCAN_RECORDS));
    ReachableAndBeyond(store, c, f);
    assert Beyond(store, c) == Select(older, Mine(c));
    SelectMember(older, Mine(c), k);
    var owned := Select(older, Mine(c));
    var j: nat :| j < |owned| && owned[j] == older[k];
    SelectNothing(owned, Wanted(f));
    assert Wanted(f)(owned[j]);
  }

  lemma {:induction false} SelectAll<T>(s: seq<T>, keep: T -> bool)
    requires forall k | 0 <= k < |s| :: keep(s[k])
    ensures Select(s, keep) == s
  {
    if s != [] {
      SelectAll(s[..|s| - 1], keep);
    }
  }

  lemma {:induction false} SelectMember<T>(s: seq<T>, keep: T -> bool, k: nat)
    requires k < |s| && keep(s[k])
    ensures s[k] in Select(s, keep)
  {
    if k < |s| - 1 {
      SelectMember(s[..|s| - 1], keep, k);
    }
  }

  lemma {:induction false} SelectShrinks<T>(s: seq<T>, keep: T -> bool)
    ensures |Select(s, keep)| <= |s|
  {
    if s != [] {
      SelectShrinks(s[..|s| - 1], keep);
    }
  }
}

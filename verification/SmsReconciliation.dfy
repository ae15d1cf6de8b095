/** Asking the provider about a message: what its answers mean, when to ask, and what is stored of it. */
module SmsReconciliation {
  import opened Basics
  import opened SmsStatus
  import opened SmsStore
  import opened SmsTransactions
  import opened SmsSettlement

  datatype Report = StillWaiting | ReportedDelivered | ReportedFailed
  datatype QueryItem = QueryItem(outId: Key, report: Report)
  datatype QueryResult = QueryUnknown | QueryPage(items: seq<QueryItem>, hasNextPage: bool)

  predicate Names(item: QueryItem, key: Key) { item.outId == key && !item.report.StillWaiting? }

  /** A page that settles nothing about this message but promises another page. */
  predicate Inconclusive(page: QueryResult, key: Key) {
    page.QueryPage? && page.hasNextPage && forall item | item in page.items :: !Names(item, key)
  }

  /** Item i of page p is the first final report that names this message. */
  predicate FirstReport(pages: seq<QueryResult>, key: Key, p: nat, i: nat) {
    && p < |pages| && (forall q | 0 <= q < p :: Inconclusive(pages[q], key))
    && pages[p].QueryPage? && i < |pages[p].items| && Names(pages[p].items[i], key)
    && (forall k | 0 <= k < i :: !Names(pages[p].items[k], key))
  }

  function DeliveryOf(r: Report): Delivery { if r.ReportedDelivered? then Delivered else if r.ReportedFailed? then Failed else Waiting }

  /** Shanghai is UTC+8 all year. */
  function ShanghaiDay(at: int): int { (at + 8 * 3_600_000) / MS_PER_DAY }

  const MAX_AGE_DAYS := 30
  const RETRY_MS := 300_000
  const LEASE_MS := 60_000

  datatype Plan = RetireJob | GiveUp | Defer | Ask

  /** What the age of the last dispatch and its agreement with the message leave to do. */
  function PlanFor(r: Row, now: int): Plan {
    if !Reconcilable(r) then RetireJob
    else if |r.attempts| == 0 then Defer
    else
      var a := r.attempts[|r.attempts| - 1];
      if (r.acceptance.Accepted? && !a.status.AttemptAccepted?) || (r.acceptance.Unknown? && !a.status.AttemptUnknown?) then Defer
      else if a.markedAt > now then Defer
      else if ShanghaiDay(now) - ShanghaiDay(a.markedAt) >= MAX_AGE_DAYS then GiveUp
      else Ask
  }

  // ----- what one reconcile job does, told from the message, the clock and the answers alone -----

  predicate AsksFor(r: Row) { r.delivery.Waiting? && (r.acceptance.Accepted? || r.acceptance.Unknown?) }

  predicate LastAgrees(r: Row, now: int) {
    && |r.attempts| > 0 && r.attempts[|r.attempts| - 1].markedAt <= now
    && (r.acceptance.Accepted? ==> r.attempts[|r.attempts| - 1].status.AttemptAccepted?)
    && (r.acceptance.Unknown? ==> r.attempts[|r.attempts| - 1].status.AttemptUnknown?)
  }

  /** The last Shanghai midnight, which is 16:00 in UTC. */
  function ShanghaiMidnight(at: int): (midnight: int)
    ensures midnight <= at < midnight + 86_400_000 && (midnight - 57_600_000) % 86_400_000 == 0
  {
    at - (at + 28_800_000) % 86_400_000
  }

  /** Thirty Shanghai days have begun since the day of the marker. */
  predicate TooOld(r: Row, now: int)
    requires |r.attempts| > 0
  {
    now >= ShanghaiMidnight(r.attempts[|r.attempts| - 1].markedAt) + 30 * 86_400_000
  }

  lemma ThirtyDays(now: int, marked: int)
    ensures ShanghaiDay(now) - ShanghaiDay(marked) >= 30 <==> now >= ShanghaiMidnight(marked) + 30 * 86_400_000
  {
  }

  ghost predicate FirstSays(pages: seq<QueryResult>, key: Key, report: Report) {
    exists p: nat, i: nat :: FirstReport(pages, key, p, i) && pages[p].items[i].report == report
  }

  predicate QueryHeldBy(r: Row, lease: nat) {
    r.reconcileJob.Some? && match r.reconcileJob.value.state case Leased(token, _) => token == lease case _ => false
  }

  predicate QueryCurrentlyHeldBy(r: Row, lease: nat, now: int) {
    r.reconcileJob.Some? && match r.reconcileJob.value.state case Leased(token, until) => token == lease && until > now case _ => false
  }

  predicate QueryEnds(db: Db, after: Db, key: Key, acceptance: Acceptance, delivery: Delivery)
    requires key in db.rows && db.rows[key].reconcileJob.Some?
  {
    OnlyRow(db, after, key, db.rows[key].(acceptance := acceptance, delivery := delivery,
                                          reconcileJob := Some(db.rows[key].reconcileJob.value.(state := Succeeded))))
  }

  /** Nothing to ask: the job ends. Too old: the delivery is unknown for good. A report: it is stored. Otherwise: in five minutes. */
  ghost predicate ReconcilesAsPromised(db: Db, after: Db, r: Result<()>, key: Key, lease: nat, pages: seq<QueryResult>, ready: bool, now: int)
    requires key in db.rows
  {
    var row := db.rows[key];
    if !AsksFor(row) then
      r.Ok? && if QueryHeldBy(row, lease) then QueryEnds(db, after, key, row.acceptance, row.delivery) else after == db
    else if LastAgrees(row, now) && TooOld(row, now) then
      r.Ok? && if QueryCurrentlyHeldBy(row, lease, now) then QueryEnds(db, after, key, row.acceptance, UnknownFinal) else after == db
    else if LastAgrees(row, now) && ready && FirstSays(pages, key, ReportedDelivered) then
      if QueryCurrentlyHeldBy(row, lease, now) then r.Ok? && QueryEnds(db, after, key, Accepted, Delivered) else r.Err? && after == db
    else if LastAgrees(row, now) && ready && FirstSays(pages, key, ReportedFailed) then
      if QueryCurrentlyHeldBy(row, lease, now) then r.Ok? && QueryEnds(db, after, key, Accepted, Failed) else r.Err? && after == db
    else
      && r.Ok?
      && if QueryHeldBy(row, lease) then
           var j := row.reconcileJob.value;
           OnlyRow(db, after, key, row.(reconcileJob := Some(j.(state := JobPending, availableAt := now + 300_000, attemptCount := j.attemptCount + 1))))
         else after == db
  }

  /** The outcome by the plan for the message. */
  ghost predicate ReconcileOutcome(db: Db, after: Db, r: Result<()>, key: Key, lease: nat, pages: seq<QueryResult>, ready: bool, now: int)
    requires key in db.rows
  {
    match PlanFor(db.rows[key], now)
    case RetireJob => r.Ok? && after == RetireTx(db, key, lease)
    case GiveUp => r.Ok? && after == (match FinalizeTx(db, key, lease, now) case Ok(db') => db' case Err(_) => db)
    case Defer => r.Ok? && after == RescheduleTx(db, key, lease, now + RETRY_MS)
    case Ask =>
      && (forall p: nat, i: nat | ready && FirstReport(pages, key, p, i) :: Recorded(db, after, r, key, lease, pages[p].items[i].report, now))
      && (!ready || (forall p: nat, i: nat :: !FirstReport(pages, key, p, i)) ==> r.Ok? && after == RescheduleTx(db, key, lease, now + RETRY_MS))
  }

  predicate Recorded(db: Db, after: Db, r: Result<()>, key: Key, lease: nat, report: Report, now: int) {
    match RecordTx(db, key, lease, DeliveryOf(report), now)
    case Ok(db') => r.Ok? && after == db'
    case Err(e) => r == Err(e) && after == db
  }

  lemma ReportSettles(page: QueryResult, key: Key, i: nat)
    requires page.QueryPage? && i < |page.items| && Names(page.items[i], key)
    ensures !Inconclusive(page, key)
  {
    assert page.items[i] in page.items;
  }

  /** The first report is one report. */
  lemma FirstReportIsOne(pages: seq<QueryResult>, key: Key, p: nat, i: nat, q: nat, j: nat)
    requires FirstReport(pages, key, p, i) && FirstReport(pages, key, q, j)
    ensures p == q && i == j
  {
    ReportSettles(pages[p], key, i);
    ReportSettles(pages[q], key, j);
  }

  lemma PlanMeans(r: Row, now: int)
    ensures PlanFor(r, now).RetireJob? <==> !AsksFor(r)
    ensures PlanFor(r, now).GiveUp? <==> AsksFor(r) && LastAgrees(r, now) && TooOld(r, now)
    ensures PlanFor(r, now).Ask? <==> AsksFor(r) && LastAgrees(r, now) && !TooOld(r, now)
  {
    if |r.attempts| > 0 { ThirtyDays(now, r.attempts[|r.attempts| - 1].markedAt); }
  }

  lemma AskedAsPromised(db: Db, after: Db, r: Result<()>, key: Key, lease: nat, pages: seq<QueryResult>, ready: bool, now: int, report: Report)
    requires key in db.rows && ReconcileOutcome(db, after, r, key, lease, pages, ready, now)
    requires PlanFor(db.rows[key], now).Ask? && ready && FirstSays(pages, key, report)
    ensures Recorded(db, after, r, key, lease, report, now)
    ensures report.ReportedDelivered? || report.ReportedFailed?
    ensures forall other :: FirstSays(pages, key, other) <==> other == report
  {
    var p: nat, i: nat :| FirstReport(pages, key, p, i) && pages[p].items[i].report == report;
    forall other | FirstSays(pages, key, other) ensures other == report {
      var q: nat, j: nat :| FirstReport(pages, key, q, j) && pages[q].items[j].report == other;
      FirstReportIsOne(pages, key, p, i, q, j);
    }
  }

  lemma SaysNothing(pages: seq<QueryResult>, key: Key)
    ensures (exists p: nat, i: nat :: FirstReport(pages, key, p, i)) ==> FirstSays(pages, key, ReportedDelivered) || FirstSays(pages, key, ReportedFailed)
  {
    if p: nat, i: nat :| FirstReport(pages, key, p, i) {
      assert FirstSays(pages, key, pages[p].items[i].report);
    }
  }

  lemma OutcomeAsPromised(db: Db, after: Db, r: Result<()>, key: Key, lease: nat, pages: seq<QueryResult>, ready: bool, now: int)
    requires key in db.rows && ReconcileOutcome(db, after, r, key, lease, pages, ready, now)
    ensures ReconcilesAsPromised(db, after, r, key, lease, pages, ready, now)
  {
    PlanMeans(db.rows[key], now);
    assert db.rows[key := db.rows[key]] == db.rows;
    if PlanFor(db.rows[key], now).Ask? && ready {
      if FirstSays(pages, key, ReportedDelivered) {
        AskedAsPromised(db, after, r, key, lease, pages, ready, now, ReportedDelivered);
      } else if FirstSays(pages, key, ReportedFailed) {
        AskedAsPromised(db, after, r, key, lease, pages, ready, now, ReportedFailed);
      } else {
        SaysNothing(pages, key);
      }
    }
  }
}

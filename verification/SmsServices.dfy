/**
 * The sms-kit services, statement by statement. Each transaction works on a copy of the database and
 * publishes it once; an early return is a rollback. Every method ends in the outcome SmsTransactions states.
 */
module SmsServices {
  import opened Basics
  import opened SmsStatus
  import opened SmsStore
  import opened SmsTransactions
  import opened SmsProtocol
  import opened SmsMarkers
  import opened SmsSettlement
  import opened SmsReconciliation

  /**
   * Everything the outside world decides about one job: clocks, resources, policy, whether the secrets and the
   * provider configuration can be read after the marker, and the provider's answer.
   */
  datatype Offer = Offer(key: Key, leasedAt: int, prepare: Timing, usable: bool, policy: Policy, readable: bool, clear: Timing,
                         result: ProviderResult, answeredAt: int)

  class SendWorker {
    const store: Store

    constructor (store: Store)
      ensures this.store == store
    {
      this.store := store;
    }

    method Lease(key: Key, now: int, leaseMs: int) returns (job: Option<Snapshot>)
      modifies store
      ensures match LeaseTx(old(store.db), key, now, leaseMs)
              case Some((db, snapshot)) => store.db == db && job == Some(snapshot)
              case None => store.db == old(store.db) && job == None
      ensures LeasesAsPromised(old(store.db), store.db, job, key, now, leaseMs)
    {
      LeaseKeepsPromise(store.db, key, now, leaseMs);
      var tx := store.db;
      if key !in tx.rows || tx.rows[key].sendJob.None? || !Leasable(tx.rows[key].sendJob.value, now) { return None; }
      var leased := GrantLease(tx.rows[key].sendJob.value, now, leaseMs);
      store.db := Put(tx, key, tx.rows[key].(sendJob := Some(leased)));
      return Some(Snapshot(key, leased.state.token, leased.attemptCount, leased.maxAttempts));
    }

    method Prepare(job: Snapshot, t: Timing, usable: bool, policy: Policy) returns (r: Result<Option<Token>>)
      modifies store
      ensures match PrepareTx(old(store.db), job, t, usable, policy)
              case Ok((db, token)) => store.db == db && r == Ok(token)
              case Err(e) => store.db == old(store.db) && r == Err(e)
      ensures PromiseKept(old(store.db), store.db, r, job, t, usable, policy)
    {
      MarkerKeepsPromise(store.db, job, t, usable, policy);
      var tx := store.db;
      if !HasJob(tx, job.key) { return Err(ConcurrentModification); }
      var row := tx.rows[job.key];
      var renewed :- Renew(row.sendJob, job.lease, t.leaseMs, t.now);
      if renewed.state.until <= t.later + t.timeoutMs || !row.acceptance.Pending? { return Err(ConcurrentModification); }
      row := row.(sendJob := Some(renewed));
      if !usable {
        row :- RejectUndispatched(row);
        tx := ReleaseBudget(Put(tx, job.key, row), job.key);
        tx := Put(tx, job.key, tx.rows[job.key].(sendJob := TryFail(tx.rows[job.key].sendJob, job.lease)));
        store.db := tx;
        return Ok(None);
      }
      tx :- HoldBudget(Put(tx, job.key, row), job.key, policy, t.later);
      row :- CreateStarted(tx.rows[job.key], Queued(job.lease), t.later, t.later + t.timeoutMs);
      store.db := Put(tx, job.key, row);
      return Ok(Some(Token(job.key, |row.attempts| - 1)));
    }

    method Clear(job: Snapshot, t: Timing) returns (r: Result<()>)
      modifies store
      ensures match ClearTx(old(store.db), job, t)
              case Ok(db) => store.db == db && r == if t.Outlasts() then Ok(()) else Err(ConcurrentModification)
              case Err(e) => store.db == old(store.db) && r == Err(e)
      ensures ClearsAsPromised(old(store.db), store.db, r, job, t)
    {
      ClearKeepsPromise(store.db, job, t);
      if !HasJob(store.db, job.key) { return Err(ConcurrentModification); }
      var renewed :- Renew(store.db.rows[job.key].sendJob, job.lease, t.leaseMs, t.now);
      store.db := Put(store.db, job.key, store.db.rows[job.key].(sendJob := Some(renewed)));
      // The renewal is its own transaction, so it stays even when the lease turns out too short.
      return if renewed.state.until <= t.later + t.timeoutMs then Err(ConcurrentModification) else Ok(());
    }

    method Complete(job: Snapshot, token: Token, result: ProviderResult, at: int) returns (r: Result<()>)
      requires token.key == job.key
      modifies store
      ensures match CompleteTx(old(store.db), job, token, result, at)
              case Ok(db) => store.db == db && r == Ok(())
              case Err(e) => store.db == old(store.db) && r == Err(e)
      ensures CompletesAsPromised(old(store.db), store.db, r, job, token, result, at)
    {
      CompleteKeepsPromise(store.db, job, token, result, at);
      if token.key !in store.db.rows || token.no >= |store.db.rows[token.key].attempts| { return Ok(()); }
      if result.ProviderAccepted? {
        r := CompleteAccepted(job, token, result, at);
      } else if result.ProviderUnknown? {
        r := CompleteUnknown(job, token, result, at);
      } else {
        r := CompleteRejected(job, token, result, at);
      }
    }

    method CompleteAccepted(job: Snapshot, token: Token, result: ProviderResult, at: int) returns (r: Result<()>)
      requires token.key == job.key && token.key in store.db.rows && token.no < |store.db.rows[token.key].attempts| && result.ProviderAccepted?
      modifies store
      ensures match CompleteTx(old(store.db), job, token, result, at)
              case Ok(db) => store.db == db && r == Ok(())
              case Err(e) => store.db == old(store.db) && r == Err(e)
    {
      var tx := store.db;
      var row := tx.rows[token.key];
      var attempt := row.attempts[token.no];
      assert row.attempts[token.no := attempt] == row.attempts;
      var ownsLease := row.sendJob.Some? && row.sendJob.value.Owned(job.lease);
      if row.acceptance.Accepted? || row.acceptance.Rejected? { return Ok(()); }
      row := CompleteAcceptance(row, Accepted, Some(result.bizId)).value;
      if !attempt.status.AttemptAccepted? { row :- CompleteAttempt(row, token.no, AttemptAccepted); }
      row := EnsureReconcile(row.(renderParams := false), at);
      if ownsLease { row := row.(sendJob := TrySucceed(row.sendJob, job.lease)); }
      store.db := Put(tx, token.key, row);
      return Ok(());
    }

    method CompleteUnknown(job: Snapshot, token: Token, result: ProviderResult, at: int) returns (r: Result<()>)
      requires token.key == job.key && token.key in store.db.rows && token.no < |store.db.rows[token.key].attempts| && result.ProviderUnknown?
      modifies store
      ensures match CompleteTx(old(store.db), job, token, result, at)
              case Ok(db) => store.db == db && r == Ok(())
              case Err(e) => store.db == old(store.db) && r == Err(e)
    {
      var tx := store.db;
      var row := tx.rows[token.key];
      var ownsLease := row.sendJob.Some? && row.sendJob.value.Owned(job.lease);
      if !row.acceptance.Pending? || !row.attempts[token.no].status.Started? { return Ok(()); }
      row := CompleteAcceptance(row, Unknown, None).value;
      row := CompleteAttempt(row, token.no, AttemptUnknown).value;
      row := EnsureReconcile(row.(renderParams := false), at);
      if ownsLease { row := row.(sendJob := TrySucceed(row.sendJob, job.lease)); }
      store.db := Put(tx, token.key, row);
      return Ok(());
    }

    method CompleteRejected(job: Snapshot, token: Token, result: ProviderResult, at: int) returns (r: Result<()>)
      requires token.key == job.key && token.key in store.db.rows && token.no < |store.db.rows[token.key].attempts| && result.ProviderRejected?
      modifies store
      ensures match CompleteTx(old(store.db), job, token, result, at)
              case Ok(db) => store.db == db && r == Ok(())
              case Err(e) => store.db == old(store.db) && r == Err(e)
    {
      var row := store.db.rows[token.key];
      var ownsLease := row.sendJob.Some? && row.sendJob.value.Owned(job.lease);
      if row.acceptance.Accepted? || row.acceptance.Rejected? { return Ok(()); }
      var mustFinalize := !result.retryable || job.Exhausted() || row.acceptance.Unknown? || !ownsLease;
      if mustFinalize {
        r := FinalizeRejected(job, token, result, at);
        return;
      }
      row :- CompleteAttempt(row, token.no, AttemptRejected);
      // The transaction holds the job row it found owned, so the reschedule always takes effect.
      row := row.(sendJob := TryReschedule(row.sendJob, job.lease, at + Backoff(job.attemptCount)));
      store.db := Put(store.db, token.key, row);
      return Ok(());
    }

    /** A rejection that ends the message. */
    method FinalizeRejected(job: Snapshot, token: Token, result: ProviderResult, at: int) returns (r: Result<()>)
      requires token.key == job.key && token.key in store.db.rows && token.no < |store.db.rows[token.key].attempts| && result.ProviderRejected?
      requires Judge(store.db.rows[token.key], token.no, job, result).Reject?
      modifies store
      ensures match CompleteTx(old(store.db), job, token, result, at)
              case Ok(db) => store.db == db && r == Ok(())
              case Err(e) => store.db == old(store.db) && r == Err(e)
    {
      var row := store.db.rows[token.key];
      var attempt := row.attempts[token.no];
      assert row.attempts[token.no := attempt] == row.attempts;
      row := CompleteAcceptance(row, Rejected, None).value;
      if !attempt.status.AttemptRejected? { row :- CompleteAttempt(row, token.no, AttemptRejected); }
      var tx := ReleaseBudget(Put(store.db, token.key, row.(renderParams := false)), token.key);
      var job' := tx.rows[token.key].sendJob;
      if job'.Some? && job'.value.Owned(job.lease) { tx := Put(tx, token.key, tx.rows[token.key].(sendJob := TryFail(job', job.lease))); }
      store.db := tx;
      return Ok(());
    }

    /** From marker to completion; the provider is called between two transactions, never inside one. */
    method RunJob(job: Snapshot, offer: Offer, ghost s: State) returns (r: Result<()>)
      requires s.db == store.db && job in s.leases
      modifies store
      ensures store.db == JobOutcome(s, job, offer).0.db && r == JobOutcome(s, job, offer).1
    {
      var prepared := Prepare(job, offer.prepare, offer.usable, offer.policy);
      if prepared.Err? { return Err(prepared.error); }
      if prepared.value.None? { return Ok(()); }
      r := Dispatch(job, prepared.value.value, offer, Next(s, SmsProtocol.Step.Prepare(job, offer.prepare, offer.usable, offer.policy)));
    }

    method Dispatch(job: Snapshot, token: Token, offer: Offer, ghost s: State) returns (r: Result<()>)
      requires s.db == store.db && token in s.flights && s.flights[token] == Flight(Ready, Some(job)) && token.key == job.key
      modifies store
      ensures store.db == DispatchOutcome(s, job, token, offer).0.db && r == DispatchOutcome(s, job, token, offer).1
    {
      if !offer.readable { return Err(NotDispatchable); }
      var cleared := Clear(job, offer.clear);
      if cleared.Err? { return cleared; }
      r := Complete(job, token, offer.result, offer.answeredAt);
    }

    /** Leases immediately before each dispatch, until the limit, the first failure, or until nothing is due. */
    method RunBatch(offers: seq<Offer>, limit: nat, leaseMs: int, ghost s: State) returns (r: Result<nat>)
      requires s.db == store.db && limit <= |offers|
      modifies store
      ensures store.db == BatchOutcome(s, offers, 0, limit, leaseMs).0.db && r == BatchOutcome(s, offers, 0, limit, leaseMs).1
    {
      var processed := 0;
      ghost var current := s;
      while processed < limit
        invariant processed <= limit && store.db == current.db
        invariant BatchOutcome(current, offers, processed, limit, leaseMs) == BatchOutcome(s, offers, 0, limit, leaseMs)
      {
        var offer := offers[processed];
        var job := Lease(offer.key, offer.leasedAt, leaseMs);
        if job.None? { return Ok(processed); }
        current := Next(current, LeaseSend(offer.key, offer.leasedAt, leaseMs));
        var done := RunJob(job.value, offer, current);
        current := JobOutcome(current, job.value, offer).0;
        if done.Err? { return Err(done.error); }
        processed := processed + 1;
      }
      return Ok(processed);
    }
  }

  /** One leased job as protocol steps: marker, renewed lease, one provider request, completion. */
  function JobOutcome(s: State, job: Snapshot, offer: Offer): (State, Result<()>) {
    var s1 := Next(s, SmsProtocol.Step.Prepare(job, offer.prepare, offer.usable, offer.policy));
    match PrepareTx(s.db, job, offer.prepare, offer.usable, offer.policy)
    case Err(e) => (s1, Err(e))
    case Ok((_, None)) => (s1, Ok(()))
    case Ok((_, Some(token))) => DispatchOutcome(s1, job, token, offer)
  }

  function DispatchOutcome(s: State, job: Snapshot, token: Token, offer: Offer): (State, Result<()>) {
    if !offer.readable then (Next(s, Crash(token)), Err(NotDispatchable)) else
    var s1 := Next(s, SmsProtocol.Step.Clear(token, offer.clear));
    match ClearTx(s.db, job, offer.clear)
    case Err(e) => (s1, Err(e))
    case Ok(_) =>
      if !offer.clear.Outlasts() then (s1, Err(ConcurrentModification)) else
      var s2 := Next(s1, SmsProtocol.Step.Send(token));
      (Next(s2, SmsProtocol.Step.Complete(token, offer.result, offer.answeredAt)),
       match CompleteTx(s2.db, job, token, offer.result, offer.answeredAt) case Ok(_) => Ok(()) case Err(e) => Err(e))
  }

  /** The jobs of one batch, one after the other; a job that fails ends the batch. */
  function BatchOutcome(s: State, offers: seq<Offer>, processed: nat, limit: nat, leaseMs: int): (State, Result<nat>)
    requires processed <= limit <= |offers|
    decreases limit - processed
  {
    if processed == limit then (s, Ok(processed)) else
      var offer := offers[processed];
      match LeaseTx(s.db, offer.key, offer.leasedAt, leaseMs)
      case None => (s, Ok(processed))
      case Some((_, job)) =>
        var (done, r) := JobOutcome(Next(s, LeaseSend(offer.key, offer.leasedAt, leaseMs)), job, offer);
        if r.Err? then (done, Err(r.error)) else BatchOutcome(done, offers, processed + 1, limit, leaseMs)
  }

  lemma RunSplits(s: State, a: seq<Step>, b: seq<Step>)
    ensures Run(s, a + b) == Run(Run(s, a), b)
    decreases |b|
  {
    if b == [] {
      assert a + b == a;
    } else {
      RunSplits(s, a, b[..|b| - 1]);
      assert (a + b)[..|a + b| - 1] == a + b[..|b| - 1];
    }
  }

  lemma StepRuns(s: State, trace: seq<Step>, step: Step)
    ensures Run(s, trace + [step]) == Next(Run(s, trace), step)
  {
    assert (trace + [step])[..|trace|] == trace;
  }

  lemma JobIsRun(s: State, job: Snapshot, offer: Offer) returns (trace: seq<Step>)
    ensures JobOutcome(s, job, offer).0 == Run(s, trace) && |JobOutcome(s, job, offer).0.sends| <= |s.sends| + 1
  {
    var prepare := SmsProtocol.Step.Prepare(job, offer.prepare, offer.usable, offer.policy);
    trace := [prepare];
    StepRuns(s, [], prepare);
    var r := PrepareTx(s.db, job, offer.prepare, offer.usable, offer.policy);
    if r.Ok? && r.value.1.Some? {
      var rest := DispatchIsRun(Next(s, prepare), job, r.value.1.value, offer);
      RunSplits(s, trace, rest);
      trace := trace + rest;
    }
  }

  lemma DispatchIsRun(s: State, job: Snapshot, token: Token, offer: Offer) returns (trace: seq<Step>)
    ensures DispatchOutcome(s, job, token, offer).0 == Run(s, trace) && |DispatchOutcome(s, job, token, offer).0.sends| <= |s.sends| + 1
  {
    trace := [if offer.readable then SmsProtocol.Step.Clear(token, offer.clear) else Crash(token)];
    StepRuns(s, [], trace[0]);
    if offer.readable && ClearTx(s.db, job, offer.clear).Ok? && offer.clear.Outlasts() {
      StepRuns(s, trace, SmsProtocol.Step.Send(token));
      trace := trace + [SmsProtocol.Step.Send(token)];
      StepRuns(s, trace, SmsProtocol.Step.Complete(token, offer.result, offer.answeredAt));
      trace := trace + [SmsProtocol.Step.Complete(token, offer.result, offer.answeredAt)];
    }
  }

  /** A worker's batch is a run of the protocol, with at most one provider request for each job it may take. */
  lemma BatchIsRun(s: State, offers: seq<Offer>, processed: nat, limit: nat, leaseMs: int) returns (trace: seq<Step>)
    requires processed <= limit <= |offers|
    ensures BatchOutcome(s, offers, processed, limit, leaseMs).0 == Run(s, trace)
    ensures |BatchOutcome(s, offers, processed, limit, leaseMs).0.sends| <= |s.sends| + limit - processed
    decreases limit - processed
  {
    trace := [];
    if processed < limit && LeaseTx(s.db, offers[processed].key, offers[processed].leasedAt, leaseMs).Some? {
      var offer := offers[processed];
      var lease := LeaseSend(offer.key, offer.leasedAt, leaseMs);
      var job := LeaseTx(s.db, offer.key, offer.leasedAt, leaseMs).value.1;
      StepRuns(s, [], lease);
      var work := JobIsRun(Next(s, lease), job, offer);
      RunSplits(s, [lease], work);
      trace := [lease] + work;
      if JobOutcome(Next(s, lease), job, offer).1.Ok? {
        var rest := BatchIsRun(JobOutcome(Next(s, lease), job, offer).0, offers, processed + 1, limit, leaseMs);
        RunSplits(s, trace, rest);
        trace := trace + rest;
      }
    }
  }

  class SendService {
    const store: Store

    constructor (store: Store)
      ensures this.store == store
    {
      this.store := store;
    }

    method Prepare(key: Key, usable: bool, policy: Policy, withinPhoneLimits: bool, now: int) returns (r: Result<Option<Token>>)
      modifies store
      ensures match DirectPrepareTx(old(store.db), key, usable, policy, withinPhoneLimits, now)
              case Ok((db, token)) => store.db == db && r == Ok(token)
              case Err(e) => store.db == old(store.db) && r == Err(e)
      ensures DirectPromiseKept(old(store.db), store.db, r, key, usable, policy, withinPhoneLimits, now)
    {
      DirectKeepsPromise(store.db, key, usable, policy, withinPhoneLimits, now);
      if !usable { return Err(TemplateUnavailable); }
      if policy.circuitOpen { return Err(CircuitOpen); }
      var tx := store.db;
      if key in tx.rows { return Ok(None); }
      tx := Put(tx, key, NewRow(false, None));
      if !withinPhoneLimits { return Err(RateLimited); }
      tx :- HoldBudget(tx, key, policy, now);
      var row := CreateStarted(tx.rows[key], Direct, now, now).value;
      store.db := Put(tx, key, row);
      assert row.attempts == [Attempt(Started, Direct, now)];
      assert store.db.rows == old(store.db.rows)[key := row];
      return Ok(Some(Token(key, |row.attempts| - 1)));
    }

    method Complete(token: Token, result: ProviderResult, at: int) returns (r: Result<()>)
      modifies store
      ensures match DirectCompleteTx(old(store.db), token, result, at)
              case Ok(db) => store.db == db && r == Ok(())
              case Err(e) => store.db == old(store.db) && r == Err(e)
      ensures CompletesDirectlyAsPromised(old(store.db), store.db, r, token, result, at)
    {
      DirectCompleteKeepsPromise(store.db, token, result, at);
      var tx := store.db;
      if token.key !in tx.rows || token.no >= |tx.rows[token.key].attempts| { return Err(ConcurrentModification); }
      var status, attemptStatus, biz := Rejected, AttemptRejected, None;
      if result.ProviderAccepted? { status, attemptStatus, biz := Accepted, AttemptAccepted, Some(result.bizId); }
      if result.ProviderUnknown? { status, attemptStatus := Unknown, AttemptUnknown; }
      var row :- CompleteAcceptance(tx.rows[token.key], status, biz);
      row :- CompleteAttempt(row, token.no, attemptStatus);
      if !status.Rejected? { row := EnsureReconcile(row, at); }
      tx := Put(tx, token.key, row);
      if status.Rejected? { tx := ReleaseBudget(tx, token.key); }
      store.db := tx;
      return Ok(());
    }
  }

  class DispatchRecoveryService {
    const store: Store

    constructor (store: Store)
      ensures this.store == store
    {
      this.store := store;
    }

    /** `sel` is what the database returns to the three locking reads of this batch. */
    method RunBatch(limit: nat, before: int, sel: Selection, at: int) returns (r: Result<nat>)
      requires ValidSelection(store.db, sel, before, limit)
      modifies store
      ensures match RecoverTx(old(store.db), sel, before, limit, at)
              case Ok(db) => store.db == db && r == Ok(|Unmarked(old(store.db), sel.expired)| + |sel.direct| + |sel.queued|)
              case Err(e) => store.db == old(store.db) && r == Err(e)
      ensures RecoversAsPromised(old(store.db), store.db, if r.Ok? then Ok(()) else Err(r.error), sel, at)
    {
      RecoverKeepsPromise(store.db, sel, before, limit, at);
      var tx, returnedToPending := ReturnExpired(store.db, sel.expired);
      var attempts := sel.direct + sel.queued;
      MarksAreDistinct(store.db, sel, before, limit);
      var marked := MarkAbandoned(tx, attempts, at);
      RecoveryOutcome(store.db, sel, before, limit, at);
      tx :- marked;
      store.db := tx;
      return Ok(returnedToPending + |attempts|);
    }

    /** Jobs whose worker never reached its marker are safe to hand out again. */
    static method ReturnExpired(db: Db, expired: seq<Key>) returns (tx: Db, returnedToPending: nat)
      requires Distinct(expired) && forall k | k in expired :: HasJob(db, k) && db.rows[k].sendJob.value.state.Leased?
      ensures tx == Returned(db, expired) && returnedToPending == |Unmarked(db, expired)|
    {
      tx, returnedToPending := db, 0;
      assert Returned(db, []) == db;
      for i := 0 to |expired|
        invariant tx == Returned(db, expired[..i]) && returnedToPending == |Unmarked(db, expired[..i])|
      {
        var key := expired[i];
        assert HasJob(db, key) && expired[..i + 1] == expired[..i] + [key];
        ReturnOne(db, expired[..i], key);
        if !HasStarted(tx.rows[key]) {
          tx := Put(tx, key, tx.rows[key].(sendJob := Some(tx.rows[key].sendJob.value.(state := JobPending))));
          returnedToPending := returnedToPending + 1;
        }
      }
      assert expired[..|expired|] == expired;
    }

    static method MarkAbandoned(db: Db, attempts: seq<Key>, at: int) returns (r: Result<Db>)
      requires Distinct(attempts) && forall k | k in attempts :: k in db.rows && HasStarted(db.rows[k])
      ensures r == if exists k | k in attempts :: !db.rows[k].acceptance.Pending? then Err(ConcurrentModification)
                   else Ok(AllAbandoned(db, attempts, at))
    {
      var tx := db;
      assert AllAbandoned(db, [], at) == db;
      for i := 0 to |attempts|
        invariant forall k | k in attempts[..i] :: k in db.rows && db.rows[k].acceptance.Pending?
        invariant tx == AllAbandoned(db, attempts[..i], at)
      {
        var key := attempts[i];
        assert key in db.rows && HasStarted(db.rows[key]) && attempts[..i + 1] == attempts[..i] + [key];
        AbandonOne(db, attempts[..i], key, at);
        var no := StartedNo(tx.rows[key].attempts);
        var attempt := tx.rows[key].attempts[no];
        var row :- CompleteAcceptance(tx.rows[key], Unknown, None);
        row := CompleteAttempt(row, no, AttemptUnknown).value;
        row := EnsureReconcile(row.(renderParams := false), at);
        if attempt.mode.Queued? { row := row.(sendJob := TrySucceed(row.sendJob, attempt.mode.lease)); }
        tx := Put(tx, key, row);
      }
      assert attempts[..|attempts|] == attempts;
      return Ok(tx);
    }
  }

  function Returned(db: Db, expired: seq<Key>): Db {
    db.(rows := map k | k in db.rows :: if k in expired then ReturnUnmarked(db.rows[k]) else db.rows[k])
  }

  function AllAbandoned(db: Db, attempts: seq<Key>, at: int): Db
    requires forall k | k in attempts :: k in db.rows && HasStarted(db.rows[k])
  {
    db.(rows := map k | k in db.rows :: if k in attempts then Abandoned(db.rows[k], at) else db.rows[k])
  }

  lemma ReturnOne(db: Db, done: seq<Key>, key: Key)
    requires key !in done && HasJob(db, key) && db.rows[key].sendJob.value.state.Leased?
    ensures Returned(db, done).rows[key] == db.rows[key]
    ensures Returned(db, done + [key]) == Put(Returned(db, done), key, ReturnUnmarked(db.rows[key]))
    ensures HasStarted(db.rows[key]) ==> Returned(db, done + [key]) == Returned(db, done)
    ensures |Unmarked(db, done + [key])| == |Unmarked(db, done)| + if HasStarted(db.rows[key]) then 0 else 1
  {
    assert Returned(db, done + [key]).rows == Returned(db, done).rows[key := ReturnUnmarked(db.rows[key])];
    if HasStarted(db.rows[key]) {
      assert Returned(db, done).rows[key := db.rows[key]] == Returned(db, done).rows;
      assert Unmarked(db, done + [key]) == Unmarked(db, done);
    } else {
      assert Unmarked(db, done + [key]) == Unmarked(db, done) + {key};
    }
  }

  lemma AbandonOne(db: Db, done: seq<Key>, key: Key, at: int)
    requires forall k | k in done :: k in db.rows && HasStarted(db.rows[k])
    requires key !in done && key in db.rows && HasStarted(db.rows[key])
    ensures AllAbandoned(db, done, at).rows[key] == db.rows[key]
    ensures AllAbandoned(db, done + [key], at) == Put(AllAbandoned(db, done, at), key, Abandoned(db.rows[key], at))
  {
    assert AllAbandoned(db, done + [key], at).rows == AllAbandoned(db, done, at).rows[key := Abandoned(db.rows[key], at)];
  }

  /** The two loops of a batch, one after the other, are the row-by-row outcome. */
  lemma RecoveryOutcome(db: Db, sel: Selection, before: int, limit: nat, at: int)
    requires ValidSelection(db, sel, before, limit)
    ensures var tx := Returned(db, sel.expired);
            var attempts := sel.direct + sel.queued;
            && (forall k | k in attempts :: k in tx.rows && HasStarted(tx.rows[k]))
            && RecoverTx(db, sel, before, limit, at) ==
                 if exists k | k in attempts :: !tx.rows[k].acceptance.Pending? then Err(ConcurrentModification)
                 else Ok(AllAbandoned(tx, attempts, at))
  {
    var tx := Returned(db, sel.expired);
    var attempts := sel.direct + sel.queued;
    forall k | k in attempts ensures k in db.rows && HasStarted(db.rows[k]) && tx.rows[k] == db.rows[k] {
      assert k in sel.direct || k in sel.queued;
    }
    if forall k | k in attempts :: tx.rows[k].acceptance.Pending? {
      assert forall k | k in db.rows && sel.Marks(k) :: k in attempts;
      assert RecoverTx(db, sel, before, limit, at).value.rows == AllAbandoned(tx, attempts, at).rows;
    } else {
      var k :| k in attempts && !tx.rows[k].acceptance.Pending?;
      assert k in db.rows && sel.Marks(k);
    }
  }

  /** The expired jobs without a started attempt, which go back to pending. */
  function Unmarked(db: Db, expired: seq<Key>): set<Key> {
    set k | k in expired && k in db.rows && !HasStarted(db.rows[k])
  }

  /** A batch names each marker once: a started attempt is direct or queued, never both. */
  lemma MarksAreDistinct(db: Db, sel: Selection, before: int, limit: nat)
    requires ValidSelection(db, sel, before, limit)
    ensures Distinct(sel.direct + sel.queued)
    ensures forall k | k in sel.direct + sel.queued :: k in db.rows && HasStarted(db.rows[k])
  {
    var all := sel.direct + sel.queued;
    forall i, j | 0 <= i < j < |all| ensures all[i] != all[j] {
      if i < |sel.direct| <= j {
        assert all[i] in sel.direct && all[j] in sel.queued;
      }
    }
    forall k | k in all ensures k in db.rows && HasStarted(db.rows[k]) { assert k in sel.direct || k in sel.queued; }
  }

  // ----- reconciliation -----

  class ReconcileService {
    const store: Store

    constructor (store: Store)
      ensures this.store == store
    {
      this.store := store;
    }

    /** `pages` are the provider's answers in page order, as many as the page limit allows. */
    static method FindReport(pages: seq<QueryResult>, key: Key) returns (found: Option<Report>)
      ensures found.Some? ==> exists p: nat, i: nat :: FirstReport(pages, key, p, i)
      ensures forall p: nat, i: nat | FirstReport(pages, key, p, i) :: found == Some(pages[p].items[i].report)
    {
      var p := 0;
      while p < |pages|
        invariant 0 <= p <= |pages|
        invariant forall q | 0 <= q < p :: Inconclusive(pages[q], key)
      {
        if pages[p].QueryUnknown? { return None; }
        var i := 0;
        while i < |pages[p].items| && !Names(pages[p].items[i], key)
          invariant 0 <= i <= |pages[p].items|
          invariant forall k | 0 <= k < i :: !Names(pages[p].items[k], key)
        {
          i := i + 1;
        }
        if i < |pages[p].items| {
          assert FirstReport(pages, key, p, i);
          return Some(pages[p].items[i].report);
        }
        if !pages[p].hasNextPage { return None; }
        p := p + 1;
      }
      return None;
    }

    /**
     * One leased reconcile job from its first read to its last write, with nobody in between.
     * `ready` says the provider configuration and the phone ciphertext are usable.
     */
    method Reconcile(key: Key, lease: nat, pages: seq<QueryResult>, ready: bool, now: int) returns (r: Result<()>)
      requires key in store.db.rows
      modifies store
      ensures r.Err? ==> store.db == old(store.db)
      ensures ReconcileOutcome(old(store.db), store.db, r, key, lease, pages, ready, now)
      ensures ReconcilesAsPromised(old(store.db), store.db, r, key, lease, pages, ready, now)
    {
      r := Process(key, lease, pages, ready, now);
      OutcomeAsPromised(old(store.db), store.db, r, key, lease, pages, ready, now);
    }

    method Process(key: Key, lease: nat, pages: seq<QueryResult>, ready: bool, now: int) returns (r: Result<()>)
      requires key in store.db.rows
      modifies store
      ensures r.Err? ==> store.db == old(store.db)
      ensures ReconcileOutcome(old(store.db), store.db, r, key, lease, pages, ready, now)
    {
      var row := store.db.rows[key];
      if !Reconcilable(row) {
        store.db := Put(store.db, key, row.(reconcileJob := TrySucceed(row.reconcileJob, lease)));
        return Ok(());
      }
      var found := None;
      if |row.attempts| > 0 {
        var attempt := row.attempts[|row.attempts| - 1];
        var agrees := if row.acceptance.Accepted? then attempt.status.AttemptAccepted? else attempt.status.AttemptUnknown?;
        var age := ShanghaiDay(now) - ShanghaiDay(attempt.markedAt);
        if agrees && attempt.markedAt <= now {
          if age >= MAX_AGE_DAYS {
            // A reclaimed lease is not an error here: whoever holds it now finalizes.
            var job := Renew(row.reconcileJob, lease, LEASE_MS, now);
            if job.Ok? {
              row := CompleteDelivery(row, UnknownFinal).value;
              store.db := Put(store.db, key, row.(reconcileJob := TrySucceed(Some(job.value), lease)));
            }
            return Ok(());
          }
          if ready { found := FindReport(pages, key); }
        }
      }
      if found.None? {
        store.db := Put(store.db, key, row.(reconcileJob := TryReschedule(row.reconcileJob, lease, now + RETRY_MS)));
        return Ok(());
      }
      var job :- Renew(row.reconcileJob, lease, LEASE_MS, now);
      row := CompleteQueryDelivery(row, DeliveryOf(found.value)).value;
      store.db := Put(store.db, key, row.(reconcileJob := TrySucceed(Some(job), lease)));
      return Ok(());
    }
  }
}
